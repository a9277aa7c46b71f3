/** Instructions go through the pipeline in order, each exactly once, and every stage keeps the address of
    the instruction it holds. */
module Retirement {
  import opened Words
  import opened Instructions
  import opened EmulatorModel
  import opened CacheModel
  import opened Pipeline
  import opened History

  // ---------- Order ----------

  function InFlight(tok: Stages<Token>): seq<nat> {
    Ids(tok.memS) + (Ids(tok.exS) + (Ids(tok.idS) + Ids(tok.ifS)))
  }

  /** Nothing lost, duplicated or reordered: the retired instructions, followed by those in flight, are the
      faultless instructions fetched so far. */
  ghost predicate InOrder(s: Sim, h: Hist, infos: Stream) {
    h.retired + InFlight(h.tok) == Faultless(infos, s.fetched)
  }

  lemma Assoc(a: seq<nat>, b: seq<nat>, c: seq<nat>)
    ensures a + (b + c) == (a + b) + c
  {
  }

  /** A move of the pipeline followed by a dump keeps the order. */
  lemma IngestKeepsOrder(h: Hist, t: Token)
    ensures var h' := Record(Enters(h, t));
      h'.retired + InFlight(h'.tok) == h.retired + InFlight(h.tok) + Ids(t)
  {
    hide Ids;
    var m, x, d, f := Ids(h.tok.memS), Ids(h.tok.exS), Ids(h.tok.idS), Ids(h.tok.ifS);
    Assoc(h.retired, m, x + (d + f));
    Assoc(x, d, f);
    Assoc(x + d, f, Ids(t));
    Assoc(h.retired + m, x + (d + f), Ids(t));
    assert x + (d + (f + Ids(t))) == x + (d + f) + Ids(t);
  }

  lemma StallKeepsOrder(s: Sim, h: Hist)
    requires Stalled(s)
    ensures var h' := Record(h.(tok := ShiftTokens(s, h.tok)));
      h'.retired + InFlight(h'.tok) == h.retired + InFlight(h.tok)
  {
    var m, x, d, f := Ids(h.tok.memS), Ids(h.tok.exS), Ids(h.tok.idS), Ids(h.tok.ifS);
    if s.dMiss != 0 {
      assert h.retired + [] == h.retired;
    } else if s.xStall > 0 {
      Assoc(h.retired, m, x + (d + f));
      assert [] + (d + f) == d + f;
    } else {
      Assoc(h.retired, m, x + (d + f));
      assert [] + f == f;
    }
  }

  /** The four turns of the final flush drain the pipeline. */
  lemma FlushKeepsOrder(h: Hist)
    ensures var h' := Record(FlushTokens(FlushTokens(FlushTokens(FlushTokens(h)))));
      h'.retired + InFlight(h'.tok) == Record(h).retired + InFlight(h.tok)
      && h'.tok.ifS == h'.tok.idS == h'.tok.exS == h'.tok.memS == Empty
  {
    hide Ids, InFlight;
    var h1 := FlushTokens(h);
    var h2 := FlushTokens(h1);
    var h3 := FlushTokens(h2);
    IngestKeepsOrder(Record(h), Empty);
    IngestKeepsOrder(Record(h1), Empty);
    IngestKeepsOrder(Record(h2), Empty);
    IngestKeepsOrder(Record(h3), Empty);
    NoId();
  }

  lemma NoId()
    ensures Ids(Empty) == []
  {
  }

  lemma NextKeepsOrder(s: Sim, h: Hist, infos: Stream)
    requires Ready(s) && InOrder(s, h, infos) && !s.halted
    ensures InOrder(Cycle(s, infos(s.fetched)), Next(s, h, infos(s.fetched)), infos)
  {
    hide Ids, InFlight, Asks, Enter, Stall, Holds, ShiftTokens;
    var t, info := Stamp(s), infos(s.fetched);
    NoId();
    OneId(s.fetched);
    CycleFetches(s, info);
    if s.except > 0 {
      IngestKeepsOrder(h.(bubbles := h.bubbles + 1), Empty);
    } else if Stalled(s) {
      StallKeepsOrder(t, h);
    } else if Faulty(info) {
      IngestKeepsOrder(h, Empty);
    } else {
      IngestKeepsOrder(h, Instr(s.fetched));
      if info.isHalt {
        FlushKeepsOrder(FetchedInto(t, h, info));
      }
    }
  }

  lemma OneId(k: nat)
    ensures Ids(Instr(k)) == [k]
  {
  }

  lemma CycleFetches(s: Sim, info: InstructionInfo)
    requires Ready(s)
    ensures Cycle(s, info).fetched == if WillFetch(s) then s.fetched + 1 else s.fetched
    ensures Cycle(s, info).halted == (s.halted || (WillFetch(s) && !Faulty(info) && info.isHalt))
  {
    hide Holds, AccessCache, Stall, Enter, Penalty, DCacheAfter, XStallOf, DStallOf, IsLoad, IsStore, StillStalled;
    var t := Stamp(s);
    if s.except == 0 {
      if Stalled(s) {
        StallFields(t);
      } else {
        EnterFields(t.(fetched := s.fetched + 1), info);
      }
    }
  }

  // ---------- Alignment ----------

  /** A stage with its address slot holds what the token says. An empty slot has no instruction in it,
      and then nobody reads its address. */
  ghost predicate Slot(infos: Stream, instr: Word, address: Word, t: Token, n: nat) {
    match t
    case Empty => instr == 0
    case Instr(k) => k < n && !Faulty(infos(k)) && instr == infos(k).instruction && address == AddressOf(infos(k))
  }

  function WordOf(infos: Stream, t: Token): Word {
    if t.Instr? then infos(t.id).instruction else 0
  }

  ghost predicate Aligned(s: Sim, tok: Stages<Token>, infos: Stream) {
    && Slot(infos, s.pipe.instr.ifS, s.addresses.ifS, tok.ifS, s.fetched)
    && Slot(infos, s.pipe.instr.idS, s.addresses.idS, tok.idS, s.fetched)
    && Slot(infos, s.pipe.instr.exS, s.addresses.exS, tok.exS, s.fetched)
    && Slot(infos, s.pipe.instr.memS, s.addresses.memS, tok.memS, s.fetched)
    && s.pipe.instr.wbS == WordOf(infos, tok.wbS)
  }

  lemma AlignedGrows(s: Sim, tok: Stages<Token>, infos: Stream)
    requires Aligned(s, tok, infos)
    ensures Aligned(s.(fetched := s.fetched + 1), tok, infos)
  {
  }

  lemma IngestAligned(s: Sim, tok: Stages<Token>, infos: Stream, instr: Word, address: Word, t: Token)
    requires Aligned(s, tok, infos) && Slot(infos, instr, address, t, s.fetched)
    ensures Aligned(Ingest(s, instr, address), tok.Ingest(t), infos)
  {
  }

  lemma ShiftAligned(s: Sim, tok: Stages<Token>, infos: Stream)
    requires Aligned(s, tok, infos)
    ensures Aligned(CountDown(Shift(s)), ShiftTokens(s, tok), infos)
  {
    hide Slot, WordOf;
    SlotBasics(infos, s.pipe.instr.memS, s.addresses.memS, tok.memS, s.fetched);
  }

  lemma SlotBasics(infos: Stream, instr: Word, address: Word, t: Token, n: nat)
    ensures Slot(infos, 0, NONE, Empty, n) && WordOf(infos, Empty) == 0
    ensures Slot(infos, instr, address, t, n) ==> instr == WordOf(infos, t)
  {
  }

  // ---------- What the dumps show ----------

  function NonZero(w: Word): seq<Word> {
    if w == 0 then [] else [w]
  }

  /** The WB instructions of the dumped pipe states, empty ones dropped. */
  function Displayed(output: seq<PipeState>): seq<Word> {
    if output == [] then [] else Displayed(output[..|output| - 1]) + NonZero(output[|output| - 1].instr.wbS)
  }

  /** The instructions with these numbers, nops dropped. */
  function InstructionsOf(infos: Stream, ids: seq<nat>): seq<Word> {
    if ids == [] then []
    else InstructionsOf(infos, ids[..|ids| - 1]) + NonZero(infos(ids[|ids| - 1]).instruction)
  }

  /** What has been dumped is what has retired. */
  ghost predicate Shown(s: Sim, h: Hist, infos: Stream) {
    && Displayed(s.output) == InstructionsOf(infos, h.retired)
    && |s.output| == s.cycleCount
    && forall j :: 0 <= j < |s.output| ==> s.output[j].cycle == j
  }

  lemma DumpShown(s: Sim, h: Hist, infos: Stream)
    requires Shown(s, h, infos) && Aligned(s, h.tok, infos) && s.pipe.cycle == s.cycleCount
    ensures Shown(Dump(s), Record(h), infos)
  {
    var out := Dump(s).output;
    assert out[..|out| - 1] == s.output;
    if h.tok.wbS.Instr? {
      var ids := Record(h).retired;
      assert ids[..|ids| - 1] == h.retired;
    } else {
      assert Record(h).retired == h.retired;
    }
  }

  // ---------- Every cycle ----------

  /** Aligned, and the dumps so far agree. */
  ghost predicate Traced(s: Sim, h: Hist, infos: Stream) {
    Aligned(s, h.tok, infos) && Shown(s, h, infos)
  }

  lemma DumpTraced(s: Sim, h: Hist, infos: Stream)
    requires Traced(s, h, infos) && s.pipe.cycle == s.cycleCount
    ensures Traced(Dump(s), Record(h), infos)
  {
    hide Shown;
    DumpShown(s, h, infos);
  }

  lemma IngestTraced(s: Sim, h: Hist, infos: Stream, instr: Word, address: Word, t: Token)
    requires Traced(s, h, infos) && Slot(infos, instr, address, t, s.fetched)
    ensures Traced(Ingest(s, instr, address), Enters(h, t), infos)
  {
    IngestAligned(s, h.tok, infos, instr, address, t);
  }

  lemma FlushTraced(s: Sim, h: Hist, infos: Stream)
    requires Traced(s, h, infos) && s.pipe.cycle == s.cycleCount
    ensures Traced(Flush(s), FlushTokens(h), infos)
    ensures Flush(s).pipe.cycle == Flush(s).cycleCount
  {
    DumpTraced(s, h, infos);
    IngestTraced(Dump(s), Record(h), infos, 0, NONE, Empty);
  }

  /** Changing counters and caches does not disturb the trace. */
  lemma TracedFrame(s: Sim, s': Sim, h: Hist, h': Hist, infos: Stream)
    requires Traced(s, h, infos)
    requires s'.pipe == s.pipe && s'.addresses == s.addresses && s'.output == s.output
    requires s'.cycleCount == s.cycleCount && s'.fetched == s.fetched
    requires h'.tok == h.tok && h'.retired == h.retired
    ensures Traced(s', h', infos)
  {
  }

  lemma EnterTraced(s: Sim, h: Hist, infos: Stream)
    requires Ready(s) && !Stalled(s) && Traced(s, h, infos) && !Faulty(infos(s.fetched))
    ensures var info := infos(s.fetched);
      var s' := Enter(s.(fetched := s.fetched + 1), info);
      Traced(s', FetchedInto(s, h, info), infos) && s'.pipe.cycle == s'.cycleCount
  {
    hide Traced, Slot, Enter, Holds, AccessCache, Penalty, DCacheAfter, XStallOf, DStallOf, AddressOf, Asks;
    var info := infos(s.fetched);
    var t := s.(fetched := s.fetched + 1);
    TracedGrows(s, h, infos);
    SlotOf(infos, s.fetched);
    var i := Ingest(t, info.instruction, AddressOf(info));
    IngestTraced(t, h, infos, info.instruction, AddressOf(info), Instr(s.fetched));
    EnterFields(t, info);
    TracedFrame(i, Enter(t, info), Enters(h, Instr(s.fetched)), FetchedInto(s, h, info), infos);
  }

  lemma TracedGrows(s: Sim, h: Hist, infos: Stream)
    requires Traced(s, h, infos)
    ensures Traced(s.(fetched := s.fetched + 1), h, infos)
  {
    AlignedGrows(s, h.tok, infos);
  }

  lemma SlotOf(infos: Stream, k: nat)
    requires !Faulty(infos(k))
    ensures Slot(infos, infos(k).instruction, AddressOf(infos(k)), Instr(k), k + 1)
    ensures Slot(infos, 0, NONE, Empty, k + 1)
  {
  }

  lemma StallTraced(s: Sim, h: Hist, infos: Stream)
    requires Ready(s) && Traced(s, h, infos)
    ensures Traced(Stall(s), Stalls(s, h), infos)
    ensures Stall(s).pipe.cycle == s.pipe.cycle && Stall(s).cycleCount == s.cycleCount
  {
    hide Aligned, Shown, Stall, Penalty, DCacheAfter, Asks, StillStalled, ShiftTokens;
    StallFields(s);
    ShiftAligned(s, h.tok, infos);
    ShownFrame(s, CountDown(Shift(s)), h, Stalls(s, h), infos);
    ShownFrame(s, Stall(s), h, Stalls(s, h), infos);
    AlignedFrame(CountDown(Shift(s)), Stall(s), ShiftTokens(s, h.tok), infos);
  }

  lemma ShownFrame(s: Sim, s': Sim, h: Hist, h': Hist, infos: Stream)
    requires Shown(s, h, infos) && s'.output == s.output && s'.cycleCount == s.cycleCount && h'.retired == h.retired
    ensures Shown(s', h', infos)
  {
  }

  lemma AlignedFrame(s: Sim, s': Sim, tok: Stages<Token>, infos: Stream)
    requires Aligned(s, tok, infos)
    requires s'.pipe == s.pipe && s'.addresses == s.addresses && s'.fetched == s.fetched
    ensures Aligned(s', tok, infos)
  {
  }

  lemma AdvanceTraced(s: Sim, h: Hist, infos: Stream)
    requires Ready(s) && Traced(s, h, infos) && s.pipe.cycle == s.cycleCount
    ensures var info := infos(s.fetched);
      Traced(Pipeline.Advance(s, info), Advances(s, h, info), infos)
      && Pipeline.Advance(s, info).pipe.cycle == Pipeline.Advance(s, info).cycleCount
  {
    hide Traced, Enter, Stall, Stalls, FetchedInto, Holds, Slot;
    var info := infos(s.fetched);
    EmptySlot(infos, s.fetched);
    EmptySlot(infos, s.fetched + 1);
    if s.except > 0 {
      TracedFrame(s, s.(except := s.except - 1), h, h.(bubbles := h.bubbles + 1), infos);
      IngestTraced(s.(except := s.except - 1), h.(bubbles := h.bubbles + 1), infos, 0, NONE, Empty);
    } else if Stalled(s) {
      StallTraced(s, h, infos);
    } else {
      var t := s.(fetched := s.fetched + 1);
      TracedGrows(s, h, infos);
      if Faulty(info) {
        var t' := t.(except := if info.isOverflow then 2 else 1);
        TracedFrame(t, t', h, h, infos);
        IngestTraced(t', h, infos, 0, NONE, Empty);
      } else {
        EnterTraced(s, h, infos);
        if info.isHalt {
          FlushesTraced(Enter(t, info), FetchedInto(s, h, info), infos);
        }
      }
    }
  }

  lemma EmptySlot(infos: Stream, n: nat)
    ensures Slot(infos, 0, NONE, Empty, n)
  {
  }

  lemma FlushesTraced(s: Sim, h: Hist, infos: Stream)
    requires Traced(s, h, infos) && s.pipe.cycle == s.cycleCount
    ensures var s' := Flush(Flush(Flush(Flush(s)))).(halted := true);
      Traced(s', FlushTokens(FlushTokens(FlushTokens(FlushTokens(h)))), infos) && s'.pipe.cycle == s'.cycleCount
  {
    hide Traced, Flush, FlushTokens;
    FlushTraced(s, h, infos);
    FlushTraced(Flush(s), FlushTokens(h), infos);
    FlushTraced(Flush(Flush(s)), FlushTokens(FlushTokens(h)), infos);
    FlushTraced(Flush(Flush(Flush(s))), FlushTokens(FlushTokens(FlushTokens(h))), infos);
    var s' := Flush(Flush(Flush(Flush(s))));
    var h' := FlushTokens(FlushTokens(FlushTokens(FlushTokens(h))));
    TracedFrame(s', s'.(halted := true), h', h', infos);
  }

  lemma NextKeepsTrace(s: Sim, h: Hist, infos: Stream)
    requires Ready(s) && Traced(s, h, infos)
    ensures Traced(Cycle(s, infos(s.fetched)), Next(s, h, infos(s.fetched)), infos)
  {
    hide Traced, Pipeline.Advance, Advances;
    var t, info := Stamp(s), infos(s.fetched);
    StampTraced(s, h, infos);
    AdvanceTraced(t, h, infos);
    DumpTraced(Pipeline.Advance(t, info), Advances(t, h, info), infos);
  }

  lemma StampTraced(s: Sim, h: Hist, infos: Stream)
    requires Traced(s, h, infos)
    ensures Traced(Stamp(s), h, infos)
  {
  }
}
