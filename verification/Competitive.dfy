/** LRU against every other replacement policy, off-line ones included: on any trace it misses at most
    `ways` times as often. The trace is cut, per set, into phases of at most `ways` distinct tags:
    LRU misses each tag of a phase at most once, and every policy misses once per phase. */
module Competitive {
  import opened Words
  import opened Recency
  import opened CacheModel

  /** What a cache of some other policy holds: for every set its tags. */
  type Contents = seq<set<nat>>

  /** A policy may drop whatever it likes, but brings in only the accessed tag, and does bring it in. */
  ghost predicate PolicyStep(c: CacheConfig, before: Contents, address: Word, after: Contents)
    requires ValidConfig(c) && |before| == |after| == NumSets(c)
  {
    && Tag(c, address) in after[Index(c, address)]
    && forall i :: 0 <= i < |after| ==>
      after[i] <= if i == Index(c, address) then before[i] + {Tag(c, address)} else before[i]
  }

  /** Every set holds at most `ways` tags. */
  ghost predicate Fits(c: CacheConfig, contents: Contents)
    requires ValidConfig(c)
  {
    |contents| == NumSets(c) && forall i :: 0 <= i < |contents| ==> |contents[i]| <= c.ways
  }

  /** The contents of a policy's cache along a trace, from a cold start. */
  ghost predicate IsPolicyRun(c: CacheConfig, trace: seq<Word>, run: seq<Contents>)
    requires ValidConfig(c)
  {
    && |run| == |trace| + 1
    && (forall n :: 0 <= n < |run| ==> Fits(c, run[n]))
    && (forall i :: 0 <= i < NumSets(c) ==> run[0][i] == {})
    && (forall n :: 0 <= n < |trace| ==> PolicyStep(c, run[n], trace[n], run[n + 1]))
  }

  ghost predicate PolicyHolds(c: CacheConfig, contents: Contents, address: Word)
    requires ValidConfig(c) && |contents| == NumSets(c)
  {
    Tag(c, address) in contents[Index(c, address)]
  }

  ghost function PolicyMisses(c: CacheConfig, trace: seq<Word>, run: seq<Contents>): nat
    requires ValidConfig(c) && IsPolicyRun(c, trace, run)
  {
    if trace == [] then 0
    else
      var n := |trace| - 1;
      PolicyMisses(c, trace[..n], run[..n + 1]) + if PolicyHolds(c, run[n], trace[n]) then 0 else 1
  }

  // ---------- One set ----------

  /** Misses of LRU in set i. */
  ghost function LruMissesIn(c: CacheConfig, trace: seq<Word>, i: nat): nat
    requires ValidConfig(c)
  {
    if trace == [] then 0
    else
      var n := |trace| - 1;
      LruMissesIn(c, trace[..n], i)
      + if Index(c, trace[n]) == i && !Holds(Replay(Cold(c), trace[..n]), trace[n]) then 1 else 0
  }

  /** Misses of the other policy in set i. */
  ghost function PolicyMissesIn(c: CacheConfig, trace: seq<Word>, run: seq<Contents>, i: nat): nat
    requires ValidConfig(c) && IsPolicyRun(c, trace, run)
  {
    if trace == [] then 0
    else
      var n := |trace| - 1;
      PolicyMissesIn(c, trace[..n], run[..n + 1], i)
      + if Index(c, trace[n]) == i && !PolicyHolds(c, run[n], trace[n]) then 1 else 0
  }

  /** `count` phases have begun; `seen` are the tags of the current one. */
  datatype Phase = Phase(count: nat, seen: set<nat>)

  ghost function NextPhase(p: Phase, t: nat, ways: nat): Phase {
    if t in p.seen then p
    else if p.count == 0 || |p.seen| >= ways then Phase(p.count + 1, {t})
    else Phase(p.count, p.seen + {t})
  }

  /** LRU has missed at most once per tag of each phase, and the current phase is the top of the stack. */
  ghost predicate LruSide(p: Phase, stack: seq<nat>, misses: nat, ways: nat) {
    && |p.seen| <= ways
    && |p.seen| <= |stack|
    && Elements(stack[..|p.seen|]) == p.seen
    && (if p.count == 0 then misses == 0 && p.seen == {} else misses + ways - |p.seen| <= ways * p.count)
  }

  /** The policy has missed once per phase; where it has not missed since the phase began, all tags of the
      phase lie in what it held then. */
  ghost predicate PolicySide(p: Phase, frame: set<nat>, held: set<nat>, misses: nat, ways: nat) {
    && misses >= p.count
    && (misses > p.count || (p.seen <= frame && held <= frame && |frame| <= ways))
    && (p.count == 0 ==> misses > 0 || held == {})
  }

  lemma LruSideStep(p: Phase, stack: seq<nat>, misses: nat, ways: nat, t: nat)
    requires ways >= 1 && Distinct(stack) && LruSide(p, stack, misses, ways)
    ensures LruSide(NextPhase(p, t, ways), Touch(stack, t),
                    if t in Truncate(stack, ways) then misses else misses + 1, ways)
  {
    hide Touch, Elements, Truncate, Distinct;
    var m := |p.seen|;
    InTop(stack, m, ways, t);
    if t in p.seen {
      TopTouched(stack, m, t);
    } else {
      TopExtended(stack, m, t);
      PhaseArithmetic(ways, p.count, misses, m);
    }
  }

  lemma InTop(stack: seq<nat>, m: nat, ways: nat, t: nat)
    requires m <= |stack| && m <= ways
    ensures t in Elements(stack[..m]) <==> t in stack[..m]
    ensures t in stack[..m] ==> t in Truncate(stack, ways)
  {
  }

  lemma PhaseArithmetic(ways: nat, count: nat, misses: nat, m: nat)
    requires ways >= 1 && m <= ways
    requires if count == 0 then misses == 0 else misses + ways - m <= ways * count
    ensures m == ways && count != 0 ==> misses + 1 + ways - 1 <= ways * (count + 1)
    ensures count == 0 ==> misses + 1 + ways - 1 <= ways * (count + 1)
    ensures count != 0 ==> misses + 1 + ways - (m + 1) <= ways * count
  {
    assert ways * (count + 1) == ways * count + ways;
  }

  /** Touching one of the top m tags permutes them. */
  lemma TopTouched(stack: seq<nat>, m: nat, t: nat)
    requires Distinct(stack) && m <= |stack| && t in stack[..m]
    ensures m <= |Touch(stack, t)| && Elements(Touch(stack, t)[..m]) == Elements(stack[..m])
  {
    hide Elements, IndexOf, Promote, Distinct;
    IndexInPrefix(stack, m, t);
    var k := IndexOf(stack, t);
    PromoteKeepsElements(stack[..m], k);
    PromotePrefix(stack, m, k);
  }

  /** Touching a tag that is not among the top m puts it before them. */
  lemma TopExtended(stack: seq<nat>, m: nat, t: nat)
    requires Distinct(stack) && m <= |stack| && t !in stack[..m]
    ensures m + 1 <= |Touch(stack, t)|
    ensures Elements(Touch(stack, t)[..m + 1]) == Elements(stack[..m]) + {t}
    ensures Elements(Touch(stack, t)[..1]) == {t}
  {
    assert Touch(stack, t)[..m + 1] == [t] + stack[..m];
    assert Touch(stack, t)[..1] == [t];
  }

  lemma IndexInPrefix(l: seq<nat>, m: nat, t: nat)
    requires Distinct(l) && m <= |l| && t in l[..m]
    ensures IndexOf(l, t) < m
  {
    var j :| 0 <= j < m && l[j] == t;
  }

  lemma PolicySideStep(p: Phase, frame: set<nat>, held: set<nat>, misses: nat, ways: nat, t: nat, held': set<nat>)
    returns (frame': set<nat>)
    requires ways >= 1 && |p.seen| <= ways && PolicySide(p, frame, held, misses, ways)
    requires t in held' && held' <= held + {t} && |held'| <= ways
    ensures PolicySide(NextPhase(p, t, ways), frame', held', if t in held then misses else misses + 1, ways)
  {
    if t !in p.seen && (p.count == 0 || |p.seen| >= ways) {
      frame' := held';
      if misses == p.count && p.count != 0 {
        SubsetOfEqualSize(p.seen, frame);
      }
    } else {
      frame' := frame;
    }
  }

  lemma SubsetOfEqualSize(a: set<nat>, b: set<nat>)
    requires a <= b && |b| <= |a|
    ensures a == b
  {
    assert b == a + (b - a);
    assert |b| == |a| + |b - a|;
    assert b - a == {};
  }

  /** Both sides hold for every set after every trace. */
  lemma {:induction false} Phases(c: CacheConfig, trace: seq<Word>, run: seq<Contents>, i: nat)
    returns (p: Phase, frame: set<nat>)
    requires ValidConfig(c) && IsPolicyRun(c, trace, run) && i < NumSets(c)
    ensures LruSide(p, Stack(SetTrace(c, trace, i)), LruMissesIn(c, trace, i), c.ways)
    ensures PolicySide(p, frame, run[|trace|][i], PolicyMissesIn(c, trace, run, i), c.ways)
  {
    hide Index, Tag, Stack, PolicySide, LruSide, NextPhase, Holds, PolicyHolds, Replay;
    if trace == [] {
      p, frame := Phase(0, {}), {};
      PhasesBegin(c, run, i);
    } else {
      var n := |trace| - 1;
      var a := trace[n];
      p, frame := Phases(c, trace[..n], run[..n + 1], i);
      assert PolicyStep(c, run[n], a, run[n + 1]);
      if Index(c, a) == i {
        assert trace[..n] + [a] == trace;
        LruSetMiss(c, trace[..n], a, p);
        frame := PolicySetMiss(c, trace, run, p, frame);
        p := NextPhase(p, Tag(c, a), c.ways);
      } else {
        PolicyDrops(p, frame, run[n][i], run[n + 1][i], PolicyMissesIn(c, trace[..n], run[..n + 1], i), c.ways);
      }
    }
  }

  /** The policy's side of an access to the set. */
  lemma PolicySetMiss(c: CacheConfig, trace: seq<Word>, run: seq<Contents>, p: Phase, frame: set<nat>)
    returns (frame': set<nat>)
    requires ValidConfig(c) && IsPolicyRun(c, trace, run) && trace != [] && |p.seen| <= c.ways
    requires var n := |trace| - 1;
      var i := Index(c, trace[n]);
      PolicySide(p, frame, run[n][i], PolicyMissesIn(c, trace[..n], run[..n + 1], i), c.ways)
    ensures var n := |trace| - 1;
      var i := Index(c, trace[n]);
      PolicySide(NextPhase(p, Tag(c, trace[n]), c.ways), frame', run[n + 1][i],
                 PolicyMissesIn(c, trace, run, i), c.ways)
  {
    hide Index, Tag, PolicySide, NextPhase;
    var n := |trace| - 1;
    var i := Index(c, trace[n]);
    assert PolicyStep(c, run[n], trace[n], run[n + 1]);
    frame' := PolicySideStep(p, frame, run[n][i], PolicyMissesIn(c, trace[..n], run[..n + 1], i), c.ways,
                             Tag(c, trace[n]), run[n + 1][i]);
  }

  lemma PhasesBegin(c: CacheConfig, run: seq<Contents>, i: nat)
    requires ValidConfig(c) && IsPolicyRun(c, [], run) && i < NumSets(c)
    ensures LruSide(Phase(0, {}), Stack([]), 0, c.ways)
    ensures PolicySide(Phase(0, {}), {}, run[0][i], 0, c.ways)
  {
  }

  /** In another set's access a policy can only drop tags. */
  lemma PolicyDrops(p: Phase, frame: set<nat>, held: set<nat>, held': set<nat>, misses: nat, ways: nat)
    requires PolicySide(p, frame, held, misses, ways) && held' <= held
    ensures PolicySide(p, frame, held', misses, ways)
  {
  }

  /** The cache's miss in a set is the miss of that set's list. */
  lemma LruSetMiss(c: CacheConfig, init: seq<Word>, a: Word, p: Phase)
    requires ValidConfig(c)
    requires LruSide(p, Stack(SetTrace(c, init, Index(c, a))), LruMissesIn(c, init, Index(c, a)), c.ways)
    ensures LruSide(NextPhase(p, Tag(c, a), c.ways), Stack(SetTrace(c, init + [a], Index(c, a))),
                    LruMissesIn(c, init + [a], Index(c, a)), c.ways)
    ensures |p.seen| <= c.ways
  {
    hide Index, Tag, SetTrace, Stack, LruMissesIn, Holds, Replay, LruSide, NextPhase, Touch, Truncate,
      Distinct, Elements;
    var i, t := Index(c, a), Tag(c, a);
    var ts := SetTrace(c, init, i);
    SetTraceSnoc(c, init, a);
    StackSnoc(ts, t);
    HoldsOnTop(c, init, a);
    MissesSnoc(c, init, a);
    SeenBound(p, Stack(ts), LruMissesIn(c, init, i), c.ways);
    StackFacts(ts);
    LruSideStep(p, Stack(ts), LruMissesIn(c, init, i), c.ways, t);
  }

  lemma SeenBound(p: Phase, stack: seq<nat>, misses: nat, ways: nat)
    requires LruSide(p, stack, misses, ways)
    ensures |p.seen| <= ways
  {
  }

  lemma SetTraceSnoc(c: CacheConfig, init: seq<Word>, a: Word)
    requires ValidConfig(c)
    ensures SetTrace(c, init + [a], Index(c, a)) == SetTrace(c, init, Index(c, a)) + [Tag(c, a)]
  {
    assert (init + [a])[..|init|] == init;
  }

  lemma StackSnoc(ts: seq<nat>, t: nat)
    ensures Stack(ts + [t]) == Touch(Stack(ts), t)
  {
    assert (ts + [t])[..|ts|] == ts;
  }

  lemma MissesSnoc(c: CacheConfig, init: seq<Word>, a: Word)
    requires ValidConfig(c)
    ensures LruMissesIn(c, init + [a], Index(c, a))
         == LruMissesIn(c, init, Index(c, a)) + if Holds(Replay(Cold(c), init), a) then 0 else 1
  {
    assert (init + [a])[..|init|] == init;
  }

  lemma HoldsOnTop(c: CacheConfig, init: seq<Word>, a: Word)
    requires ValidConfig(c)
    ensures Holds(Replay(Cold(c), init), a)
      <==> Tag(c, a) in Truncate(Stack(SetTrace(c, init, Index(c, a))), c.ways)
  {
    SetsAreIndependent(c, init, Index(c, a));
    LruIsStackPrefix(SetTrace(c, init, Index(c, a)), c.ways);
  }

  /** Per set: LRU misses at most `ways` times as often. */
  lemma SetCompetitive(c: CacheConfig, trace: seq<Word>, run: seq<Contents>, i: nat)
    requires ValidConfig(c) && IsPolicyRun(c, trace, run) && i < NumSets(c)
    ensures LruMissesIn(c, trace, i) <= c.ways * PolicyMissesIn(c, trace, run, i)
  {
    hide Stack, SetTrace, LruMissesIn, PolicyMissesIn, Elements, IsPolicyRun;
    var p, frame := Phases(c, trace, run, i);
    MulMonotone(c.ways, p.count, PolicyMissesIn(c, trace, run, i));
  }

  lemma MulMonotone(k: nat, x: nat, y: nat)
    requires x <= y
    ensures k * x <= k * y
  {
  }

  // ---------- All sets ----------

  ghost function Sum(s: seq<nat>): nat {
    if s == [] then 0 else Sum(s[..|s| - 1]) + s[|s| - 1]
  }

  lemma {:induction false} SumScaled(s: seq<nat>, t: seq<nat>, k: nat)
    requires |s| == |t| && forall i :: 0 <= i < |s| ==> s[i] <= k * t[i]
    ensures Sum(s) <= k * Sum(t)
  {
    if s != [] {
      var n := |s| - 1;
      SumScaled(s[..n], t[..n], k);
      assert k * (Sum(t[..n]) + t[n]) == k * Sum(t[..n]) + k * t[n];
    }
  }

  /** One component grows by d, the others stay. */
  lemma {:induction false} SumBumped(s: seq<nat>, t: seq<nat>, j: nat, d: nat)
    requires |s| == |t| && j < |s|
    requires t == s[j := s[j] + d]
    ensures Sum(t) == Sum(s) + d
  {
    var n := |s| - 1;
    if j == n {
      assert t[..n] == s[..n];
    } else {
      assert t[..n] == s[..n][j := s[j] + d];
      SumBumped(s[..n], t[..n], j, d);
    }
  }

  lemma {:induction false} SumZero(s: seq<nat>)
    requires forall i :: 0 <= i < |s| ==> s[i] == 0
    ensures Sum(s) == 0
  {
    if s != [] {
      SumZero(s[..|s| - 1]);
    }
  }

  /** Misses of LRU, set by set. */
  ghost function LruMissCounts(c: CacheConfig, trace: seq<Word>): seq<nat>
    requires ValidConfig(c)
  {
    seq(NumSets(c), (i: nat) => LruMissesIn(c, trace, i))
  }

  /** Misses of the other policy, set by set. */
  ghost function PolicyMissCounts(c: CacheConfig, trace: seq<Word>, run: seq<Contents>): seq<nat>
    requires ValidConfig(c) && IsPolicyRun(c, trace, run)
  {
    seq(NumSets(c), (i: nat) => PolicyMissesIn(c, trace, run, i))
  }

  lemma {:induction false} LruMissesAddUp(c: CacheConfig, trace: seq<Word>)
    requires ValidConfig(c)
    ensures Replay(Cold(c), trace).misses == Sum(LruMissCounts(c, trace))
  {
    hide Index, Tag, Holds, Sum, Access;
    var counts := LruMissCounts(c, trace);
    if trace == [] {
      SumZero(counts);
    } else {
      var n := |trace| - 1;
      LruMissesAddUp(c, trace[..n]);
      var before, j := LruMissCounts(c, trace[..n]), Index(c, trace[n]);
      var d := if Holds(Replay(Cold(c), trace[..n]), trace[n]) then 0 else 1;
      assert counts == before[j := before[j] + d];
      SumBumped(before, counts, j, d);
    }
  }

  lemma {:induction false} PolicyMissesAddUp(c: CacheConfig, trace: seq<Word>, run: seq<Contents>)
    requires ValidConfig(c) && IsPolicyRun(c, trace, run)
    ensures PolicyMisses(c, trace, run) == Sum(PolicyMissCounts(c, trace, run))
  {
    hide Index, Tag, PolicyHolds, Sum;
    var counts := PolicyMissCounts(c, trace, run);
    if trace == [] {
      SumZero(counts);
    } else {
      var n := |trace| - 1;
      PolicyMissesAddUp(c, trace[..n], run[..n + 1]);
      var before, j := PolicyMissCounts(c, trace[..n], run[..n + 1]), Index(c, trace[n]);
      var d := if PolicyHolds(c, run[n], trace[n]) then 0 else 1;
      assert counts == before[j := before[j] + d];
      SumBumped(before, counts, j, d);
    }
  }

  /** LRU is `ways`-competitive against every replacement policy with the same sets and ways. */
  lemma LruIsCompetitive(c: CacheConfig, trace: seq<Word>, run: seq<Contents>)
    requires ValidConfig(c) && IsPolicyRun(c, trace, run)
    ensures Replay(Cold(c), trace).misses <= c.ways * PolicyMisses(c, trace, run)
  {
    hide Replay, PolicyMisses, LruMissesIn, PolicyMissesIn, IsPolicyRun;
    LruMissesAddUp(c, trace);
    PolicyMissesAddUp(c, trace, run);
    forall i | 0 <= i < NumSets(c)
      ensures LruMissesIn(c, trace, i) <= c.ways * PolicyMissesIn(c, trace, run, i)
    {
      SetCompetitive(c, trace, run, i);
    }
    SumScaled(LruMissCounts(c, trace), PolicyMissCounts(c, trace, run), c.ways);
  }

  /** What the LRU cache itself holds along a trace. */
  ghost function LruRun(c: CacheConfig, trace: seq<Word>): seq<Contents>
    requires ValidConfig(c)
  {
    if trace == [] then [LruContents(c, trace)]
    else LruRun(c, trace[..|trace| - 1]) + [LruContents(c, trace)]
  }

  ghost function LruContents(c: CacheConfig, trace: seq<Word>): (r: Contents)
    requires ValidConfig(c)
    ensures |r| == NumSets(c)
    ensures forall i :: 0 <= i < |r| ==> r[i] == Elements(Replay(Cold(c), trace).sets[i])
  {
    seq(NumSets(c), i requires 0 <= i < NumSets(c) => Elements(Replay(Cold(c), trace).sets[i]))
  }

  /** LRU is one of the policies it competes with, and is counted the same way. */
  lemma {:induction false} LruIsAPolicy(c: CacheConfig, trace: seq<Word>)
    requires ValidConfig(c)
    ensures IsPolicyRun(c, trace, LruRun(c, trace))
    ensures PolicyMisses(c, trace, LruRun(c, trace)) == Replay(Cold(c), trace).misses
    ensures LruRun(c, trace)[|trace|] == LruContents(c, trace)
  {
    hide Index, Tag, Recency.Access, Elements, Fits, PolicyStep, LruContents, Holds, PolicyHolds;
    LruFits(c, trace);
    if trace == [] {
      ColdContents(c);
    } else {
      var n := |trace| - 1;
      LruIsAPolicy(c, trace[..n]);
      assert LruRun(c, trace)[..n + 1] == LruRun(c, trace[..n]);
      assert trace[..n] + [trace[n]] == trace;
      LruPolicyStep(c, trace[..n], trace[n]);
      MissCounts(Replay(Cold(c), trace[..n]), trace[n]);
    }
  }

  lemma ColdContents(c: CacheConfig)
    requires ValidConfig(c)
    ensures forall i :: 0 <= i < NumSets(c) ==> LruContents(c, [])[i] == {}
  {
  }

  lemma LruFits(c: CacheConfig, trace: seq<Word>)
    requires ValidConfig(c)
    ensures Fits(c, LruContents(c, trace))
  {
    hide Replay, SetTrace, Elements, Lru;
    forall i | 0 <= i < NumSets(c)
      ensures |LruContents(c, trace)[i]| <= c.ways
    {
      SetsAreIndependent(c, trace, i);
      LruCount(SetTrace(c, trace, i), c.ways);
    }
  }

  lemma LruCount(ts: seq<nat>, w: nat)
    requires w >= 1
    ensures |Elements(Lru(ts, w))| <= w
  {
    LruIsStackPrefix(ts, w);
    StackFacts(ts);
    DistinctCount(Lru(ts, w));
  }

  lemma LruPolicyStep(c: CacheConfig, init: seq<Word>, a: Word)
    requires ValidConfig(c)
    ensures PolicyStep(c, LruContents(c, init), a, LruContents(c, init + [a]))
    ensures PolicyHolds(c, LruContents(c, init), a) <==> Holds(Replay(Cold(c), init), a)
  {
    hide Index, Tag, Recency.Access;
    assert (init + [a])[..|init|] == init;
    var l := Replay(Cold(c), init).sets[Index(c, a)];
    AccessElements(l, Tag(c, a), c.ways);
  }

  lemma AccessElements(l: seq<nat>, t: nat, ways: nat)
    requires ways >= 1
    ensures t in Elements(Recency.Access(l, t, ways))
    ensures Elements(Recency.Access(l, t, ways)) <= Elements(l) + {t}
  {
    var r := Recency.Access(l, t, ways);
    assert r[0] == t;
    forall x | x in r
      ensures x in l || x == t
    {
      var j :| 0 <= j < |r| && r[j] == x;
      assert Touch(l, t)[j] == x;
    }
  }
}
