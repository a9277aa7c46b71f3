/** Which instructions reach the caches, with which addresses, and how often they miss. */
module Lookups {
  import opened Words
  import opened Instructions
  import opened EmulatorModel
  import opened CacheModel
  import opened Pipeline
  import opened History
  import opened Retirement
  import Recency

  // ---------- Each instruction misses at most once ----------

  ghost predicate Increasing(ids: seq<nat>) {
    forall i, j :: 0 <= i < j < |ids| ==> ids[i] < ids[j]
  }

  ghost predicate AllBelow(ids: seq<nat>, k: nat) {
    forall i :: 0 <= i < |ids| ==> ids[i] < k
  }

  ghost predicate Before(a: Token, k: nat) {
    a.Instr? ==> a.id < k
  }

  /** Younger instructions are further back. */
  ghost predicate Ordered(tok: Stages<Token>, n: nat) {
    && Before(tok.memS, n) && Before(tok.exS, n) && Before(tok.idS, n) && Before(tok.ifS, n)
    && (tok.ifS.Instr? ==> Before(tok.idS, tok.ifS.id) && Before(tok.exS, tok.ifS.id) && Before(tok.memS, tok.ifS.id))
    && (tok.idS.Instr? ==> Before(tok.exS, tok.idS.id) && Before(tok.memS, tok.idS.id))
    && (tok.exS.Instr? ==> Before(tok.memS, tok.exS.id))
  }

  /** These instructions have reached MEM. */
  ghost predicate ReachedMem(ids: seq<nat>, tok: Stages<Token>, n: nat) {
    && AllBelow(ids, n)
    && (tok.exS.Instr? ==> AllBelow(ids, tok.exS.id))
    && (tok.idS.Instr? ==> AllBelow(ids, tok.idS.id))
    && (tok.ifS.Instr? ==> AllBelow(ids, tok.ifS.id))
    && (tok.memS.Instr? ==> AllBelow(ids, tok.memS.id + 1))
  }

  ghost predicate NonDecreasing(ids: seq<nat>) {
    forall i, j :: 0 <= i < j < |ids| ==> ids[i] <= ids[j]
  }

  /** Lookups come in program order, and no instruction misses twice: when the one in MEM has missed, its block is
      present. */
  ghost predicate Once(s: Sim, h: Hist)
    requires Ready(s)
  {
    && Ordered(h.tok, s.fetched)
    && NonDecreasing(h.lookups) && ReachedMem(h.lookups, h.tok, s.fetched)
    && Increasing(h.missed) && ReachedMem(h.missed, h.tok, s.fetched)
    && (h.tok.memS.Instr? && h.tok.memS.id in h.missed ==> Holds(s.dCache, s.addresses.memS))
  }

  lemma IngestOnce(s: Sim, h: Hist, instr: Word, address: Word)
    requires Ready(s) && Once(s, h)
    ensures Once(Ingest(s, instr, address), Enters(h, Empty))
    ensures Once(Ingest(s.(fetched := s.fetched + 1), instr, address), Enters(h, Empty))
    ensures Once(Ingest(s.(fetched := s.fetched + 1), instr, address), Enters(h, Instr(s.fetched)))
  {
    hide Holds;
  }

  lemma ShiftOnce(s: Sim, h: Hist)
    requires Ready(s) && Once(s, h)
    ensures Once(CountDown(Shift(s)), h.(tok := ShiftTokens(s, h.tok)))
  {
    hide Holds;
  }

  /** A lookup of the instruction in MEM. */
  lemma NotedOnce(s: Sim, s': Sim, h: Hist)
    requires Ready(s) && Ready(s') && Once(s, h)
    requires s'.dCache == DCacheAfter(s) && s'.addresses.memS == s.addresses.memS && s'.fetched == s.fetched
    ensures Once(s', Noted(h, s))
  {
    hide Holds, AccessCache;
    if Asks(s) {
      HoldsAfterAccess(s.dCache, s.addresses.memS);
      LookupsGrow(h.lookups, h.tok, s.fetched);
      if h.tok.memS.Instr? && !Holds(s.dCache, s.addresses.memS) {
        var k := h.tok.memS.id;
        assert h.missed + Ids(h.tok.memS) == h.missed + [k];
        assert AllBelow(h.missed, k);
      } else {
        assert Noted(h, s).missed == h.missed;
      }
    }
  }

  lemma LookupsGrow(ids: seq<nat>, tok: Stages<Token>, n: nat)
    requires Ordered(tok, n) && NonDecreasing(ids) && ReachedMem(ids, tok, n)
    ensures NonDecreasing(ids + Ids(tok.memS)) && ReachedMem(ids + Ids(tok.memS), tok, n)
  {
  }

  lemma OnceFrame(s: Sim, s': Sim, h: Hist, h': Hist)
    requires Ready(s) && Ready(s') && Once(s, h)
    requires s'.dCache == s.dCache && s'.addresses.memS == s.addresses.memS && s'.fetched == s.fetched
    requires h'.tok == h.tok && h'.missed == h.missed && h'.lookups == h.lookups
    ensures Once(s', h')
  {
  }

  lemma StallOnce(s: Sim, h: Hist)
    requires Ready(s) && Once(s, h)
    ensures Once(Stall(s), Stalls(s, h))
  {
    hide Once, Stall, Noted, Penalty, DCacheAfter, StillStalled, ShiftTokens;
    var s1 := CountDown(Shift(s));
    var h0 := h.(tok := ShiftTokens(s, h.tok));
    var h1 := StallMoved(s, h);
    ShiftOnce(s, h);
    OnceFrame(s1, s1, h0, h1);
    StallFields(s);
    if StillStalled(s) {
      NotedOnce(s1, Stall(s), h1);
    } else {
      OnceFrame(s1, Stall(s), h1, h1);
    }
  }

  lemma EnterOnce(s: Sim, h: Hist, info: InstructionInfo)
    requires Ready(s) && WillFetch(s) && Once(s, h)
    ensures Once(Enter(s.(fetched := s.fetched + 1), info), FetchedInto(s, h, info))
  {
    hide Once, Enter, Penalty, DCacheAfter, AccessCache, XStallOf, DStallOf, AddressOf, Holds;
    var t := s.(fetched := s.fetched + 1);
    var i := Ingest(t, info.instruction, AddressOf(info));
    IngestOnce(s, h, info.instruction, AddressOf(info));
    EnterFields(t, info);
    NotedOnce(i, Enter(t, info), Enters(h, Instr(s.fetched)));
    NotedFrame(Enters(h, Instr(s.fetched)), i, Ingest(s, info.instruction, AddressOf(info)));
  }

  lemma NotedFrame(h: Hist, s: Sim, s': Sim)
    requires Ready(s) && Ready(s')
    requires s'.dCache == s.dCache && s'.addresses == s.addresses && s'.pipe == s.pipe
    ensures Noted(h, s) == Noted(h, s') && Asks(s) == Asks(s')
  {
  }

  lemma FlushOnce(s: Sim, h: Hist)
    requires Ready(s) && Once(s, h)
    ensures Once(Flush(s), FlushTokens(h))
  {
    hide Once;
    var s1 := s.(output := s.output + [s.pipe], cycleCount := s.cycleCount + 1);
    OnceFrame(s, s1, h, Record(h));
    IngestOnce(s1, Record(h), 0, NONE);
  }

  lemma FlushesOnce(s: Sim, h: Hist)
    requires Ready(s) && Once(s, h)
    ensures Once(Flush(Flush(Flush(Flush(s)))).(halted := true),
                 FlushTokens(FlushTokens(FlushTokens(FlushTokens(h)))))
  {
    hide Once, Flush, FlushTokens;
    FlushOnce(s, h);
    FlushReady(s);
    FlushOnce(Flush(s), FlushTokens(h));
    FlushReady(Flush(s));
    FlushOnce(Flush(Flush(s)), FlushTokens(FlushTokens(h)));
    FlushReady(Flush(Flush(s)));
    FlushOnce(Flush(Flush(Flush(s))), FlushTokens(FlushTokens(FlushTokens(h))));
    FlushReady(Flush(Flush(Flush(s))));
    var s' := Flush(Flush(Flush(Flush(s))));
    var h' := FlushTokens(FlushTokens(FlushTokens(FlushTokens(h))));
    OnceFrame(s', s'.(halted := true), h', h');
  }

  lemma FlushReady(s: Sim)
    requires Ready(s)
    ensures Ready(Flush(s))
  {
  }

  lemma AdvanceOnce(s: Sim, h: Hist, info: InstructionInfo)
    requires Ready(s) && Once(s, h)
    ensures Once(Pipeline.Advance(s, info), Advances(s, h, info))
  {
    hide Once, Enter, Stall, Stalls, FetchedInto, Flush, FlushTokens, Holds;
    if s.except > 0 {
      var h1 := h.(bubbles := h.bubbles + 1);
      OnceFrame(s, s.(except := s.except - 1), h, h1);
      IngestOnce(s.(except := s.except - 1), h1, 0, NONE);
    } else if Stalled(s) {
      StallOnce(s, h);
    } else if Faulty(info) {
      var t := s.(except := if info.isOverflow then 2 else 1);
      OnceFrame(s, t, h, h);
      IngestOnce(t, h, 0, NONE);
    } else {
      EnterOnce(s, h, info);
      if info.isHalt {
        FlushesOnce(Enter(s.(fetched := s.fetched + 1), info), FetchedInto(s, h, info));
      }
    }
  }

  lemma NextOnce(s: Sim, h: Hist, info: InstructionInfo)
    requires Ready(s) && Once(s, h)
    ensures Once(Cycle(s, info), Next(s, h, info))
  {
    hide Once, Pipeline.Advance, Advances;
    OnceFrame(s, Stamp(s), h, h);
    AdvanceOnce(Stamp(s), h, info);
    OnceFrame(Pipeline.Advance(Stamp(s), info), Cycle(s, info), Advances(Stamp(s), h, info), Next(s, h, info));
  }

  // ---------- The caches replay the trace of the program ----------

  function Pcs(infos: Stream, ids: seq<nat>): seq<Word> {
    seq(|ids|, i requires 0 <= i < |ids| => infos(ids[i]).pc)
  }

  function Addresses(infos: Stream, ids: seq<nat>): seq<Word> {
    seq(|ids|, i requires 0 <= i < |ids| => AddressOf(infos(ids[i])))
  }

  ghost predicate IsMemoryOp(info: InstructionInfo) {
    !Faulty(info) && (IsLoad(info.instruction) || IsStore(info.instruction))
  }

  /** The instruction cache has seen the PCs of exactly the faultless instructions. */
  ghost predicate ICacheReplays(s: Sim, infos: Stream, c: CacheConfig)
    requires ValidConfig(c)
  {
    s.iCache == Replay(Cold(c), Pcs(infos, Faultless(infos, s.fetched)))
  }

  /** The data cache has seen the effective addresses of the instructions looked up, each a load or store;
      its misses are the recorded ones. */
  ghost predicate DCacheReplays(s: Sim, h: Hist, infos: Stream, c: CacheConfig)
    requires ValidConfig(c)
  {
    && s.dCache == Replay(Cold(c), Addresses(infos, h.lookups))
    && s.dCache.misses == |h.missed|
    && (forall i :: 0 <= i < |h.lookups| ==> IsMemoryOp(infos(h.lookups[i])))
    && (forall i :: 0 <= i < |h.missed| ==> IsMemoryOp(infos(h.missed[i])))
  }

  lemma ReplaySnoc(c: CacheConfig, trace: seq<Word>, a: Word)
    requires ValidConfig(c)
    ensures Replay(Cold(c), trace + [a]) == AccessCache(Replay(Cold(c), trace), a)
  {
    hide AccessCache;
    assert (trace + [a])[..|trace|] == trace;
  }

  lemma AdvanceICache(s: Sim, infos: Stream, c: CacheConfig)
    requires Ready(s) && ValidConfig(c) && ICacheReplays(s, infos, c)
    ensures ICacheReplays(Pipeline.Advance(s, infos(s.fetched)), infos, c)
  {
    hide Enter, Stall, Holds, Flush, AccessCache, Replay;
    var info := infos(s.fetched);
    var t := s.(fetched := s.fetched + 1);
    var ids := Faultless(infos, s.fetched);
    if s.except > 0 {
    } else if Stalled(s) {
      StallICache(s);
    } else if !Faulty(info) {
      EnterICache(t, info);
      FlushesICache(Enter(t, info));
      assert Pcs(infos, ids + [s.fetched]) == Pcs(infos, ids) + [info.pc];
      ReplaySnoc(c, Pcs(infos, ids), info.pc);
    }
  }

  lemma StallICache(s: Sim)
    requires Ready(s)
    ensures Stall(s).iCache == s.iCache && Stall(s).fetched == s.fetched
  {
    hide Stall, Penalty, DCacheAfter, StillStalled;
    StallFields(s);
  }

  lemma EnterICache(s: Sim, info: InstructionInfo)
    requires Ready(s) && !Stalled(s)
    ensures Enter(s, info).iCache == AccessCache(s.iCache, info.pc) && Enter(s, info).fetched == s.fetched
  {
    hide Enter, Penalty, DCacheAfter, AccessCache, XStallOf, DStallOf, AddressOf, Holds;
    EnterFields(s, info);
  }

  lemma FlushesICache(s: Sim)
    ensures Flush(Flush(Flush(Flush(s)))).iCache == s.iCache
    ensures Flush(Flush(Flush(Flush(s)))).dCache == s.dCache
    ensures Flush(Flush(Flush(Flush(s)))).fetched == s.fetched
  {
  }

  lemma NextICache(s: Sim, infos: Stream, c: CacheConfig)
    requires Ready(s) && ValidConfig(c) && ICacheReplays(s, infos, c)
    ensures ICacheReplays(Cycle(s, infos(s.fetched)), infos, c)
  {
    hide Pipeline.Advance, Replay, Faultless;
    AdvanceICache(Stamp(s), infos, c);
  }

  /** The lookup in state s is made for the instruction in MEM, with its own address. */
  lemma NotedReplays(s: Sim, s': Sim, h: Hist, infos: Stream, c: CacheConfig)
    requires Ready(s) && ValidConfig(c) && DCacheReplays(s, h, infos, c)
    requires Slot(infos, s.pipe.instr.memS, s.addresses.memS, h.tok.memS, s.fetched)
    requires s'.dCache == DCacheAfter(s)
    ensures DCacheReplays(s', Noted(h, s), infos, c)
  {
    hide AccessCache, Replay, Holds, IsLoad, IsStore, AddressOf;
    if Asks(s) {
      ClassesDisjoint(0);
      var k := h.tok.memS.id;
      assert Addresses(infos, h.lookups + [k]) == Addresses(infos, h.lookups) + [s.addresses.memS];
      ReplaySnoc(c, Addresses(infos, h.lookups), s.addresses.memS);
      MissCounts(s.dCache, s.addresses.memS);
    }
  }

  lemma DCacheFrame(s: Sim, s': Sim, h: Hist, h': Hist, infos: Stream, c: CacheConfig)
    requires ValidConfig(c) && DCacheReplays(s, h, infos, c)
    requires s'.dCache == s.dCache && h'.lookups == h.lookups && h'.missed == h.missed
    ensures DCacheReplays(s', h', infos, c)
  {
  }

  lemma StallReplays(s: Sim, h: Hist, infos: Stream, c: CacheConfig)
    requires Ready(s) && ValidConfig(c) && DCacheReplays(s, h, infos, c) && Aligned(s, h.tok, infos)
    ensures DCacheReplays(Stall(s), Stalls(s, h), infos, c)
  {
    hide DCacheReplays, Stall, Penalty, DCacheAfter, StillStalled, ShiftTokens, Noted, Slot;
    var s1 := CountDown(Shift(s));
    var h1 := StallMoved(s, h);
    ShiftAligned(s, h.tok, infos);
    StallFields(s);
    DCacheFrame(s, s1, h, h1, infos, c);
    if StillStalled(s) {
      NotedReplays(s1, Stall(s), h1, infos, c);
    } else {
      DCacheFrame(s1, Stall(s), h1, h1, infos, c);
    }
  }

  lemma EnterReplays(s: Sim, h: Hist, infos: Stream, c: CacheConfig)
    requires Ready(s) && WillFetch(s) && ValidConfig(c) && DCacheReplays(s, h, infos, c) && Aligned(s, h.tok, infos)
    requires !Faulty(infos(s.fetched))
    ensures DCacheReplays(Enter(s.(fetched := s.fetched + 1), infos(s.fetched)),
                          FetchedInto(s, h, infos(s.fetched)), infos, c)
  {
    hide DCacheReplays, Enter, Penalty, DCacheAfter, AccessCache, XStallOf, DStallOf, AddressOf, Holds, Slot, Noted;
    var info := infos(s.fetched);
    var t := s.(fetched := s.fetched + 1);
    var i := Ingest(t, info.instruction, AddressOf(info));
    AlignedGrows(s, h.tok, infos);
    SlotOf(infos, s.fetched);
    IngestAligned(t, h.tok, infos, info.instruction, AddressOf(info), Instr(s.fetched));
    DCacheFrame(s, i, h, Enters(h, Instr(s.fetched)), infos, c);
    EnterFields(t, info);
    NotedReplays(i, Enter(t, info), Enters(h, Instr(s.fetched)), infos, c);
    NotedFrame(Enters(h, Instr(s.fetched)), i, Ingest(s, info.instruction, AddressOf(info)));
  }

  lemma AdvanceDCache(s: Sim, h: Hist, infos: Stream, c: CacheConfig)
    requires Ready(s) && ValidConfig(c) && DCacheReplays(s, h, infos, c) && Aligned(s, h.tok, infos)
    ensures DCacheReplays(Pipeline.Advance(s, infos(s.fetched)), Advances(s, h, infos(s.fetched)), infos, c)
  {
    hide DCacheReplays, Enter, Stall, Stalls, FetchedInto, Holds, Flush, FlushTokens, Aligned;
    var info := infos(s.fetched);
    if s.except > 0 {
      DCacheFrame(s, Bubble(s), h, Enters(h.(bubbles := h.bubbles + 1), Empty), infos, c);
    } else if Stalled(s) {
      StallReplays(s, h, infos, c);
    } else if Faulty(info) {
      DCacheFrame(s, Pipeline.Fetch(s, info), h, Enters(h, Empty), infos, c);
    } else {
      var e, g := Enter(s.(fetched := s.fetched + 1), info), FetchedInto(s, h, info);
      EnterReplays(s, h, infos, c);
      if info.isHalt {
        FlushesICache(e);
        FlushTokensLookups(g);
        DCacheFrame(e, Pipeline.Fetch(s, info), g, History.Fetches(s, h, info), infos, c);
      }
    }
  }

  lemma FlushTokensLookups(h: Hist)
    ensures var h' := FlushTokens(FlushTokens(FlushTokens(FlushTokens(h))));
      h'.lookups == h.lookups && h'.missed == h.missed
  {
  }

  lemma NextDCache(s: Sim, h: Hist, infos: Stream, c: CacheConfig)
    requires Ready(s) && ValidConfig(c) && DCacheReplays(s, h, infos, c) && Aligned(s, h.tok, infos)
    ensures DCacheReplays(Cycle(s, infos(s.fetched)), Next(s, h, infos(s.fetched)), infos, c)
  {
    hide Pipeline.Advance, Advances, DCacheReplays, Slot;
    var t, info := Stamp(s), infos(s.fetched);
    DCacheFrame(s, t, h, h, infos, c);
    AdvanceDCache(t, h, infos, c);
    DCacheFrame(Pipeline.Advance(t, info), Cycle(s, info), Advances(t, h, info), Next(s, h, info), infos, c);
  }

  // ---------- Which instructions are looked up ----------

  /** A pending data miss belongs to an instruction that has been looked up. */
  ghost predicate Waiting(s: Sim, h: Hist) {
    s.dMiss > 0 && !s.halted ==> h.tok.memS.Instr? && h.tok.memS.id in h.lookups
  }

  lemma NotedWaits(s: Sim, h: Hist, infos: Stream)
    requires Ready(s) && Aligned(s, h.tok, infos)
    ensures Penalty(s) > 0 ==> h.tok.memS.Instr? && h.tok.memS.id in Noted(h, s).lookups
    ensures forall k :: k in h.lookups ==> k in Noted(h, s).lookups
  {
    hide Holds, IsLoad, IsStore;
    ClassesDisjoint(0);
  }

  lemma StallWaits(s: Sim, h: Hist, infos: Stream)
    requires Ready(s) && !s.halted && Aligned(s, h.tok, infos) && Waiting(s, h)
    ensures Waiting(Stall(s), Stalls(s, h))
  {
    hide Stall, Stalls, Noted, Penalty, DCacheAfter, Aligned, Shift, ShiftTokens, CountDown, StillStalled, StallMoved;
    StallFields(s);
    StallHistory(s, h);
    ShiftAligned(s, h.tok, infos);
    NotedToken(StallMoved(s, h), CountDown(Shift(s)));
    NotedWaits(CountDown(Shift(s)), StallMoved(s, h), infos);
  }

  /** A stall cycle, and what it keeps: a freeze leaves the instruction in MEM. */
  lemma StallHistory(s: Sim, h: Hist)
    requires Ready(s)
    ensures Ready(CountDown(Shift(s)))
    ensures Stalls(s, h) == if StillStalled(s) then Noted(StallMoved(s, h), CountDown(Shift(s))) else StallMoved(s, h)
    ensures StallMoved(s, h).lookups == h.lookups && StallMoved(s, h).tok == ShiftTokens(s, h.tok)
    ensures s.dMiss > 0 ==> ShiftTokens(s, h.tok).memS == h.tok.memS
    ensures CountDown(Shift(s)).dMiss == Minus(s.dMiss, 1) && CountDown(Shift(s)).halted == s.halted
  {
    hide Noted, StillStalled;
  }

  lemma EnterWaits(s: Sim, h: Hist, infos: Stream)
    requires Ready(s) && WillFetch(s) && Aligned(s, h.tok, infos) && !Faulty(infos(s.fetched))
    ensures Waiting(Enter(s.(fetched := s.fetched + 1), infos(s.fetched)), FetchedInto(s, h, infos(s.fetched)))
  {
    hide Enter, Noted, Penalty, DCacheAfter, AccessCache, XStallOf, DStallOf, AddressOf, Holds, Slot;
    var info := infos(s.fetched);
    var t := s.(fetched := s.fetched + 1);
    var i := Ingest(t, info.instruction, AddressOf(info));
    AlignedGrows(s, h.tok, infos);
    SlotOf(infos, s.fetched);
    IngestAligned(t, h.tok, infos, info.instruction, AddressOf(info), Instr(s.fetched));
    EnterFields(t, info);
    NotedWaits(i, Enters(h, Instr(s.fetched)), infos);
    NotedFrame(Enters(h, Instr(s.fetched)), i, Ingest(s, info.instruction, AddressOf(info)));
    NotedToken(Enters(h, Instr(s.fetched)), i);
  }

  lemma NotedToken(h: Hist, s: Sim)
    requires Ready(s)
    ensures Noted(h, s).tok == h.tok
  {
  }

  lemma AdvanceWaits(s: Sim, h: Hist, infos: Stream)
    requires Ready(s) && !s.halted && Aligned(s, h.tok, infos) && Waiting(s, h)
    requires s.except > 0 ==> !Stalled(s)
    ensures Waiting(Pipeline.Advance(s, infos(s.fetched)), Advances(s, h, infos(s.fetched)))
  {
    hide Enter, Stall, Stalls, FetchedInto, Flush, FlushTokens, Aligned;
    if s.except == 0 {
      if Stalled(s) {
        StallWaits(s, h, infos);
      } else if !Faulty(infos(s.fetched)) {
        EnterWaits(s, h, infos);
      }
    }
  }

  lemma NextWaits(s: Sim, h: Hist, infos: Stream)
    requires Ready(s) && !s.halted && Aligned(s, h.tok, infos) && Waiting(s, h)
    requires s.except > 0 ==> !Stalled(s)
    ensures Waiting(Cycle(s, infos(s.fetched)), Next(s, h, infos(s.fetched)))
  {
    hide Pipeline.Advance, Advances, Slot;
    AdvanceWaits(Stamp(s), h, infos);
  }

  /** Instruction k has entered MEM without being looked up, or was never there to be. */
  ghost predicate PassedBy(s: Sim, h: Hist, k: nat) {
    && k < s.fetched && k !in h.lookups
    && h.tok.ifS != Instr(k) && h.tok.idS != Instr(k) && h.tok.exS != Instr(k)
    && (h.tok.memS == Instr(k) ==> s.dMiss == 0)
  }

  /** Whoever is passed by stays so: the next call moves it out of MEM, and only the instruction in MEM is looked up. */
  lemma NextPassesBy(s: Sim, h: Hist, infos: Stream, k: nat)
    requires Ready(s) && PassedBy(s, h, k)
    ensures PassedBy(Cycle(s, infos(s.fetched)), Next(s, h, infos(s.fetched)), k)
  {
    hide Holds, IsLoad, IsStore, AddressOf, Asks, Shift, StillStalled, Enter, Stall, Flush, Cycle;
    var t, info := Stamp(s), infos(s.fetched);
    CycleFetches(s, info);
    if s.except == 0 && Stalled(s) {
      StallPassesBy(t, h, k);
    } else if WillFetch(s) && !Faulty(info) {
      FlushPassesBy(FetchedInto(t, h, info), k);
    }
  }

  lemma StallPassesBy(s: Sim, h: Hist, k: nat)
    requires Ready(s) && Stalled(s) && PassedBy(s, h, k)
    ensures var h' := Stalls(s, h);
      k !in h'.lookups && h'.tok.ifS != Instr(k) && h'.tok.idS != Instr(k) && h'.tok.exS != Instr(k)
      && h'.tok.memS != Instr(k)
  {
    hide Holds, Asks, Shift, StillStalled;
  }

  lemma FlushPassesBy(h: Hist, k: nat)
    requires k !in h.lookups
    requires h.tok.ifS != Instr(k) && h.tok.idS != Instr(k) && h.tok.exS != Instr(k) && h.tok.memS != Instr(k)
    ensures var h' := FlushTokens(FlushTokens(FlushTokens(FlushTokens(h))));
      k !in h'.lookups && h'.tok.ifS == h'.tok.idS == h'.tok.exS == h'.tok.memS == Empty
  {
  }

  /** The next call moves EX to MEM. */
  predicate MovesOn(s: Sim) {
    s.except > 0 || s.dMiss == 0
  }

  /** The next call consults the data cache, when there is something to ask. */
  predicate LooksUp(s: Sim, info: InstructionInfo) {
    (WillFetch(s) && !Faulty(info)) || (s.except == 0 && Stalled(s) && StillStalled(s))
  }

  /** A stall consults the data cache exactly when afterwards a counter other than `dMiss` is still running. */
  lemma LooksUpWhileRunning(s: Sim, info: InstructionInfo)
    requires Ready(s) && s.except == 0 && Stalled(s)
    ensures var c := Cycle(s, info);
      LooksUp(s, info) <==> c.iMiss > 0 || c.dStall > 0 || c.xStall > 0
  {
    hide Stall, Penalty, DCacheAfter;
    StallFields(Stamp(s));
  }

  /** The instruction has an address to ask for. */
  ghost predicate HasAddress(info: InstructionInfo) {
    IsMemoryOp(info) && AddressOf(info) != NONE
  }

  /** The next call moves k to MEM and asks the data cache for it. */
  ghost predicate AsksFor(s: Sim, h: Hist, infos: Stream, k: nat) {
    h.tok.exS == Instr(k) && MovesOn(s) && LooksUp(s, infos(s.fetched)) && HasAddress(infos(k))
  }

  /** Exactly which instructions have been looked up after one more call: those from before, and the one in EX if the
      call moves it to MEM and is a faultless fetch, or a stall that leaves another counter running, and it is a
      load or store with an address. What a flush moves through MEM is not among them. */
  lemma EntryLookup(s: Sim, h: Hist, infos: Stream, k: nat)
    requires Ready(s) && !s.halted && Once(s, h) && Aligned(s, h.tok, infos) && Waiting(s, h)
    requires s.except > 0 ==> !Stalled(s)
    ensures k in Next(s, h, infos(s.fetched)).lookups <==> k in h.lookups || AsksFor(s, h, infos, k)
  {
    hide Next, Once, Aligned, LooksUp, HasAddress, Stalled;
    if k in h.lookups {
      NextKeepsLookups(s, h, infos(s.fetched), k);
    } else if h.tok.exS == Instr(k) && MovesOn(s) {
      LookupFromEx(s, h, infos, k);
    } else if k in Next(s, h, infos(s.fetched)).lookups {
      NewLookup(s, h, infos(s.fetched), k);
    }
  }

  /** Only the instruction that moves from EX to MEM can be new among the lookups: a freeze asks for one that has been
      looked up. */
  lemma NewLookup(s: Sim, h: Hist, info: InstructionInfo, k: nat)
    requires Ready(s) && !s.halted && Waiting(s, h) && k !in h.lookups && k in Next(s, h, info).lookups
    ensures h.tok.exS == Instr(k) && MovesOn(s)
  {
    hide Stalls, Holds, Asks, AddressOf, Flush;
    var t := Stamp(s);
    if s.except == 0 {
      if Stalled(s) {
        StallLookup(t, h, k);
      } else if !Faulty(info) {
        FlushTokensLookups(FetchedInto(t, h, info));
      }
    }
  }

  lemma StallLookup(s: Sim, h: Hist, k: nat)
    requires Ready(s) && Stalled(s) && k !in h.lookups && k in Stalls(s, h).lookups
    ensures if s.dMiss > 0 then h.tok.memS == Instr(k) else h.tok.exS == Instr(k)
  {
    hide Holds, Asks, Shift, StillStalled;
  }

  lemma LookupFromEx(s: Sim, h: Hist, infos: Stream, k: nat)
    requires Ready(s) && Once(s, h) && Aligned(s, h.tok, infos) && h.tok.exS == Instr(k) && MovesOn(s)
    requires s.except > 0 ==> !Stalled(s)
    ensures k in Next(s, h, infos(s.fetched)).lookups <==> LooksUp(s, infos(s.fetched)) && HasAddress(infos(k))
  {
    hide Holds, IsLoad, IsStore, AddressOf, Flush;
    var t, info := Stamp(s), infos(s.fetched);
    assert k !in h.lookups;
    if s.except == 0 {
      if Stalled(s) {
        StallEntry(t, h, infos, k);
      } else if !Faulty(info) {
        FetchEntry(t, h, infos, k);
        FlushTokensLookups(FetchedInto(t, h, info));
      }
    }
  }

  lemma StallEntry(s: Sim, h: Hist, infos: Stream, k: nat)
    requires Ready(s) && Stalled(s) && s.dMiss == 0 && Aligned(s, h.tok, infos) && h.tok.exS == Instr(k)
    requires k !in h.lookups
    ensures k in Stalls(s, h).lookups <==> StillStalled(s) && HasAddress(infos(k))
  {
    hide Holds, IsLoad, IsStore, AddressOf, StillStalled;
  }

  lemma FetchEntry(s: Sim, h: Hist, infos: Stream, k: nat)
    requires Ready(s) && Aligned(s, h.tok, infos) && h.tok.exS == Instr(k) && k !in h.lookups
    ensures k in FetchedInto(s, h, infos(s.fetched)).lookups <==> HasAddress(infos(k))
  {
    hide Holds, IsLoad, IsStore, AddressOf;
  }

  /** Having entered MEM without a lookup, the instruction has been passed by. */
  lemma EntryPassesBy(s: Sim, h: Hist, infos: Stream, k: nat)
    requires Ready(s) && Once(s, h) && !s.halted && Aligned(s, h.tok, infos) && Waiting(s, h)
    requires h.tok.exS == Instr(k) && MovesOn(s) && (s.except > 0 ==> !Stalled(s))
    requires k !in Next(s, h, infos(s.fetched)).lookups
    ensures PassedBy(Cycle(s, infos(s.fetched)), Next(s, h, infos(s.fetched)), k)
  {
    hide Cycle, Next, Once, Aligned, MovesOn, Stalled;
    var info := infos(s.fetched);
    NextWaits(s, h, infos);
    CycleFetches(s, info);
    EntryPlaces(s, h, infos, k);
  }

  lemma EntryPlaces(s: Sim, h: Hist, infos: Stream, k: nat)
    requires Ready(s) && Once(s, h) && Aligned(s, h.tok, infos) && h.tok.exS == Instr(k) && MovesOn(s)
    ensures var tok := Next(s, h, infos(s.fetched)).tok;
      && k < s.fetched
      && tok.ifS != Instr(k) && tok.idS != Instr(k) && tok.exS != Instr(k)
      && tok.memS == if EntersHalt(s, infos(s.fetched)) then Empty else Instr(k)
  {
    hide Next, ReachedMem, NonDecreasing, Increasing, Holds, EntersHalt, MovesOn;
    NextTokens(s, h, infos(s.fetched));
  }

  /** Where the instructions go when EX moves on. */
  lemma NextTokens(s: Sim, h: Hist, info: InstructionInfo)
    requires Ready(s) && MovesOn(s)
    ensures var tok := Next(s, h, info).tok;
      if EntersHalt(s, info) then tok.ifS == tok.idS == tok.exS == tok.memS == Empty
      else tok == h.tok.Ingest(Empty) || tok == h.tok.Ingest(Instr(s.fetched)) || tok == h.tok.HoldId(Empty)
           || tok == h.tok.HoldIf(Empty)
  {
    hide Noted, Stalls, AddressOf;
    var t := Stamp(s);
    if s.except == 0 {
      if Stalled(s) {
        StallTokens(t, h);
      } else {
        NotedToken(Enters(h, Instr(s.fetched)), Ingest(t, info.instruction, AddressOf(info)));
      }
    }
  }

  lemma StallTokens(s: Sim, h: Hist)
    requires Ready(s) && Stalled(s)
    ensures Stalls(s, h).tok == ShiftTokens(s, h.tok)
  {
    hide Noted, StillStalled, Shift, ShiftTokens;
    StallHistory(s, h);
    NotedToken(StallMoved(s, h), CountDown(Shift(s)));
  }

  /** Lookups are never taken back. */
  lemma NextKeepsLookups(s: Sim, h: Hist, info: InstructionInfo, k: nat)
    requires Ready(s) && k in h.lookups
    ensures k in Next(s, h, info).lookups
  {
    hide Holds, Asks, StillStalled, Shift, ShiftTokens;
  }

  lemma NoLookupCycles(s: Sim, h: Hist, info: InstructionInfo)
    requires Ready(s)
    requires s.except > 0 || (Stalled(s) && !StillStalled(s)) || (WillFetch(s) && Faulty(info))
    ensures Next(s, h, info).lookups == h.lookups && Cycle(s, info).dCache == s.dCache
  {
    hide Holds, AccessCache, IsLoad, IsStore, Enter;
    StallFields(Stamp(s));
  }

  // ---------- Repeated lookups ----------

  /** The list without immediate repetitions. */
  function Dedup(ids: seq<nat>): (r: seq<nat>)
    ensures ids != [] ==> r != [] && r[|r| - 1] == ids[|ids| - 1]
    ensures ids == [] ==> r == []
  {
    if |ids| <= 1 then ids
    else
      var n := |ids| - 1;
      if ids[n] == ids[n - 1] then Dedup(ids[..n]) else Dedup(ids[..n]) + [ids[n]]
  }

  lemma {:induction false} DedupIncreasing(ids: seq<nat>)
    requires NonDecreasing(ids)
    ensures Increasing(Dedup(ids))
    ensures forall k :: k in Dedup(ids) <==> k in ids
  {
    if |ids| > 1 {
      var n := |ids| - 1;
      DedupIncreasing(ids[..n]);
      assert ids == ids[..n] + [ids[n]];
      DedupStep(ids[..n], Dedup(ids[..n]), ids[n]);
    }
  }

  lemma DedupStep(ids: seq<nat>, r: seq<nat>, k: nat)
    requires ids != [] && r != [] && r[|r| - 1] == ids[|ids| - 1] <= k && Increasing(r)
    ensures k != ids[|ids| - 1] ==> Increasing(r + [k])
    ensures k == ids[|ids| - 1] ==> k in ids
  {
    if k != ids[|ids| - 1] {
      forall i | 0 <= i < |r|
        ensures r[i] < k
      {
        assert r[i] <= r[|r| - 1];
      }
    }
  }

  /** Accessing the block accessed last changes nothing but the count of hits. */
  lemma RepeatOnlyHits(c: CacheState, a: Word)
    requires WellFormed(c) && c.sets[Index(c.config, a)] != [] && c.sets[Index(c.config, a)][0] == Tag(c.config, a)
    requires |c.sets[Index(c.config, a)]| <= c.config.ways
    ensures AccessCache(c, a) == c.(hits := c.hits + 1)
  {
    hide Index, Tag;
    var l := c.sets[Index(c.config, a)];
    assert Recency.Touch(l, l[0]) == l;
    assert AccessCache(c, a).sets == c.sets;
  }

  lemma AccessedInFront(c: CacheState, a: Word)
    requires WellFormed(c)
    ensures var s' := AccessCache(c, a).sets[Index(c.config, a)];
      s' != [] && s'[0] == Tag(c.config, a) && |s'| <= c.config.ways
  {
    hide Index, Tag;
  }

  ghost predicate SameButHits(c: CacheState, c': CacheState) {
    c'.config == c.config && c'.sets == c.sets && c'.misses == c.misses
  }

  lemma SameAccess(c: CacheState, c': CacheState, a: Word)
    requires WellFormed(c) && WellFormed(c') && SameButHits(c, c')
    ensures SameButHits(AccessCache(c, a), AccessCache(c', a))
  {
    hide Index, Tag, Recency.Access;
  }

  /** A repeated lookup of the same instruction only adds a hit: contents and misses are those of the list without
      repetitions. */
  lemma {:induction false} RepeatsDoNotMatter(infos: Stream, ids: seq<nat>, c: CacheConfig)
    requires ValidConfig(c)
    ensures SameButHits(Replay(Cold(c), Addresses(infos, Dedup(ids))), Replay(Cold(c), Addresses(infos, ids)))
  {
    hide AccessCache, AddressOf, Replay;
    if |ids| > 1 {
      var n := |ids| - 1;
      var init, a := ids[..n], AddressOf(infos(ids[n]));
      RepeatsDoNotMatter(infos, init, c);
      var before := Replay(Cold(c), Addresses(infos, init));
      assert Addresses(infos, ids) == Addresses(infos, init) + [a];
      ReplaySnoc(c, Addresses(infos, init), a);
      if ids[n] == ids[n - 1] {
        assert Addresses(infos, init) == Addresses(infos, init[..n - 1]) + [a];
        ReplaySnoc(c, Addresses(infos, init[..n - 1]), a);
        AccessedInFront(Replay(Cold(c), Addresses(infos, init[..n - 1])), a);
        RepeatOnlyHits(before, a);
      } else {
        assert Addresses(infos, Dedup(ids)) == Addresses(infos, Dedup(init)) + [a];
        ReplaySnoc(c, Addresses(infos, Dedup(init)), a);
        SameAccess(Replay(Cold(c), Addresses(infos, Dedup(init))), before, a);
      }
    }
  }

  // ---------- Counting ----------

  /** The number of faultless loads and stores among the first n instructions. */
  ghost function MemoryOps(infos: Stream, n: nat): nat {
    if n == 0 then 0 else MemoryOps(infos, n - 1) + if IsMemoryOp(infos(n - 1)) then 1 else 0
  }

  lemma {:induction false} MemoryOpsBound(infos: Stream, n: nat)
    ensures MemoryOps(infos, n) <= |Faultless(infos, n)|
  {
    if n != 0 {
      MemoryOpsBound(infos, n - 1);
    }
  }

  /** An increasing list of loads and stores is no longer than there are of them. */
  lemma {:induction false} IncreasingCount(infos: Stream, ids: seq<nat>, n: nat)
    requires Increasing(ids) && AllBelow(ids, n)
    requires forall i :: 0 <= i < |ids| ==> IsMemoryOp(infos(ids[i]))
    ensures |ids| <= MemoryOps(infos, n)
  {
    if n != 0 {
      if ids != [] && ids[|ids| - 1] == n - 1 {
        IncreasingCount(infos, ids[..|ids| - 1], n - 1);
      } else {
        IncreasingCount(infos, ids, n - 1);
      }
    }
  }
}
