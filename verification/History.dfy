/** What a run of the timing machine has done so far. The history follows which dynamic instruction sits
    in which stage, and counts what each cycle was spent on; the machine itself never looks at it. */
module History {
  import opened Instructions
  import opened EmulatorModel
  import opened CacheModel
  import opened Pipeline

  /** A slot is empty or holds the instruction with this number. */
  datatype Token = Empty | Instr(id: nat)

  datatype Hist = Hist(tok: Stages<Token>,
                       retired: seq<nat>,  // instructions seen in WB at the dumps, in order
                       stalls: nat,        // stall cycles
                       bubbles: nat,       // exception bubbles
                       frozen: nat,        // stall cycles with a data miss pending
                       charged: nat,       // stall cycles with an instruction miss pending
                       lookups: seq<nat>,  // instructions the data cache was asked for, in order
                       missed: seq<nat>)   // those of them that missed

  const UNSTARTED := Hist(Stages(Empty, Empty, Empty, Empty, Empty), [], 0, 0, 0, 0, [], [])

  function Ids(t: Token): seq<nat> {
    if t.Instr? then [t.id] else []
  }

  function Record(h: Hist): Hist {
    h.(retired := h.retired + Ids(h.tok.wbS))
  }

  function Enters(h: Hist, t: Token): Hist {
    h.(tok := h.tok.Ingest(t))
  }

  /** The lookup made in state s. */
  function Noted(h: Hist, s: Sim): Hist
    requires Ready(s)
  {
    if !Asks(s) then h
    else h.(lookups := h.lookups + Ids(h.tok.memS),
            missed := if Holds(s.dCache, s.addresses.memS) then h.missed else h.missed + Ids(h.tok.memS))
  }

  function ShiftTokens(s: Sim, tok: Stages<Token>): Stages<Token> {
    if s.dMiss != 0 then tok.(wbS := Empty)
    else if s.xStall > 0 then tok.HoldId(Empty)
    else if s.dStall > 0 || s.iMiss > 0 then tok.HoldIf(Empty)
    else tok
  }

  /** The history of a stall cycle before its lookup. */
  function StallMoved(s: Sim, h: Hist): Hist {
    h.(tok := ShiftTokens(s, h.tok), stalls := h.stalls + 1,
       frozen := h.frozen + (if s.dMiss > 0 then 1 else 0), charged := h.charged + (if s.iMiss > 0 then 1 else 0))
  }

  function Stalls(s: Sim, h: Hist): Hist
    requires Ready(s)
  {
    if StillStalled(s) then Noted(StallMoved(s, h), CountDown(Shift(s))) else StallMoved(s, h)
  }

  function FetchedInto(s: Sim, h: Hist, info: InstructionInfo): Hist
    requires Ready(s)
  {
    Noted(Enters(h, Instr(s.fetched)), Ingest(s, info.instruction, AddressOf(info)))
  }

  function FlushTokens(h: Hist): Hist {
    Enters(Record(h), Empty)
  }

  function Fetches(s: Sim, h: Hist, info: InstructionInfo): Hist
    requires Ready(s)
  {
    if Faulty(info) then Enters(h, Empty)
    else if info.isHalt then FlushTokens(FlushTokens(FlushTokens(FlushTokens(FetchedInto(s, h, info)))))
    else FetchedInto(s, h, info)
  }

  function Advances(s: Sim, h: Hist, info: InstructionInfo): Hist
    requires Ready(s)
  {
    if s.except > 0 then Enters(h.(bubbles := h.bubbles + 1), Empty)
    else if Stalled(s) then Stalls(s, h)
    else Fetches(s, h, info)
  }

  /** The history after one more call in state s. */
  function Next(s: Sim, h: Hist, info: InstructionInfo): Hist
    requires Ready(s)
  {
    Record(Advances(Stamp(s), h, info))
  }

  function HistoryOf(s: Sim, infos: Stream, n: nat): Hist
    requires Ready(s)
  {
    if n == 0 then UNSTARTED
    else
      var p := RunCycles(s, infos, n - 1);
      if p.halted then HistoryOf(s, infos, n - 1)
      else Next(p, HistoryOf(s, infos, n - 1), infos(p.fetched))
  }

  // ---------- Instructions that do not fault ----------

  /** HALT, and only HALT, stops the machine, and it does not fault. */
  ghost predicate Sound(infos: Stream) {
    forall k :: (infos(k).isHalt <==> infos(k).instruction == HALT) && (infos(k).isHalt ==> !Faulty(infos(k)))
  }

  /** The numbers below n of the instructions that do not fault. */
  function Faultless(infos: Stream, n: nat): seq<nat> {
    if n == 0 then []
    else if Faulty(infos(n - 1)) then Faultless(infos, n - 1)
    else Faultless(infos, n - 1) + [n - 1]
  }

  /** Two empty slots follow an overflow, one an illegal instruction, besides its own. */
  function FaultBubbles(infos: Stream, n: nat): nat {
    if n == 0 then 0
    else FaultBubbles(infos, n - 1)
         + if infos(n - 1).isOverflow then 2 else if !infos(n - 1).isValid then 1 else 0
  }

  lemma {:induction false} FaultlessBound(infos: Stream, n: nat)
    ensures |Faultless(infos, n)| <= n
    ensures FaultBubbles(infos, n) <= 2 * (n - |Faultless(infos, n)|)
    ensures forall i :: 0 <= i < |Faultless(infos, n)| ==>
      Faultless(infos, n)[i] < n && !Faulty(infos(Faultless(infos, n)[i]))
  {
    if n != 0 {
      FaultlessBound(infos, n - 1);
    }
  }
}
