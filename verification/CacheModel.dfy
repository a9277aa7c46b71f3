/** The set-associative cache as a value: for every set the list of its tags, most recently used first.
    Theorems about single sets (module Recency) are lifted to the cache over traces of addresses. */
module CacheModel {
  import opened Words
  import opened Recency

  datatype CacheConfig = CacheConfig(cacheSize: Word, blockSize: Word, ways: Word, missLatency: Word)

  /** The number of times n can be halved before it reaches 1. */
  function CountBits(n: nat): nat {
    if n <= 1 then 0 else 1 + CountBits(n / 2)
  }

  function NumSets(c: CacheConfig): Word
    requires c.ways >= 1 && c.blockSize >= 1
  {
    Quotient(Quotient(c.cacheSize, c.ways), c.blockSize)
  }

  function Quotient(a: Word, b: Word): Word
    requires b >= 1
  {
    var q := a / b;
    assert q * b + a % b == a;
    assert q >= 0 && q * b >= q;
    q
  }

  /** There is at least one way, one byte per block and one set. */
  predicate ValidConfig(c: CacheConfig) {
    c.ways >= 1 && c.blockSize >= 1 && NumSets(c) >= 1
  }

  /** `address >> numBlockOffsetBits` */
  function Block(c: CacheConfig, address: Word): nat {
    Shr(address, CountBits(c.blockSize))
  }

  function IndexBits(c: CacheConfig): nat
    requires ValidConfig(c)
  {
    CountBits(NumSets(c))
  }

  function Index(c: CacheConfig, address: Word): (i: nat)
    requires ValidConfig(c)
    ensures i < NumSets(c)
  {
    CountBitsBound(NumSets(c));
    Low(Block(c, address), IndexBits(c))
  }

  function Tag(c: CacheConfig, address: Word): (t: Word)
    requires ValidConfig(c)
  {
    Shr(address, CountBits(c.blockSize) + IndexBits(c))
  }

  /** The counted bits are the exponent of the largest power of two not above n. */
  lemma {:induction false} CountBitsBound(n: nat)
    requires n >= 1
    ensures Pow2(CountBits(n)) <= n < 2 * Pow2(CountBits(n))
  {
    if n > 1 {
      CountBitsBound(n / 2);
    }
  }

  /** The tag is never shifted by the full width of a word. */
  lemma ShiftsInRange(c: CacheConfig)
    requires ValidConfig(c)
    ensures CountBits(c.blockSize) + IndexBits(c) < 32
  {
    var j, k, n := CountBits(c.blockSize), IndexBits(c), NumSets(c);
    CountBitsBound(c.blockSize);
    CountBitsBound(n);
    QuotientProduct(Quotient(c.cacheSize, c.ways), c.blockSize);
    ProductMonotone(Pow2(j), c.blockSize, Pow2(k), n);
    Pow2Product(j, k);
    if j + k >= 32 {
      Pow2Of32();
      Pow2Monotone(32, j + k);
      assert false;
    }
  }

  lemma QuotientProduct(a: Word, b: Word)
    requires b >= 1
    ensures b * Quotient(a, b) <= a
  {
    assert (a / b) * b + a % b == a;
  }

  lemma ProductMonotone(a: nat, b: nat, x: nat, y: nat)
    requires a <= b && x <= y
    ensures a * x <= b * y
  {
    assert a * x <= b * x;
    assert b * x <= b * y;
  }

  lemma {:induction false} Pow2Product(j: nat, k: nat)
    ensures Pow2(j + k) == Pow2(j) * Pow2(k)
  {
    if j != 0 {
      Pow2Product(j - 1, k);
      DoubleLeft(Pow2(j - 1), Pow2(k));
    }
  }

  lemma DoubleLeft(a: nat, b: nat)
    ensures (2 * a) * b == 2 * (a * b)
  {
  }

  /** Tag and index together identify exactly the block `address >> offsetBits`. */
  lemma TagAndIndexNameBlock(c: CacheConfig, a: Word, b: Word)
    requires ValidConfig(c)
    ensures Tag(c, a) == Tag(c, b) && Index(c, a) == Index(c, b) <==> Block(c, a) == Block(c, b)
    ensures Block(c, a) == Shl(Tag(c, a), IndexBits(c)) + Index(c, a)
  {
    var off, k := CountBits(c.blockSize), IndexBits(c);
    ShrShr(a, off, k);
    ShrShr(b, off, k);
    SplitAt(Block(c, a), k);
    SplitAt(Block(c, b), k);
  }

  /** Where an address goes, in plain arithmetic: with 2^j the largest power of two not above the block size and 2^k the
      largest not above the number of sets, its block number is the address divided by 2^j, its set the remainder of
      that by 2^k and its tag the quotient. */
  lemma Placement(c: CacheConfig, a: Word)
    requires ValidConfig(c)
    ensures exists j: nat, k: nat ::
      && Pow2(j) <= c.blockSize < 2 * Pow2(j) && Pow2(k) <= NumSets(c) < 2 * Pow2(k)
      && Block(c, a) == a / Pow2(j) && Index(c, a) == a / Pow2(j) % Pow2(k) && Tag(c, a) == a / Pow2(j) / Pow2(k)
  {
    var j, k := CountBits(c.blockSize), CountBits(NumSets(c));
    CountBitsBound(c.blockSize);
    CountBitsBound(NumSets(c));
    HighBits(a, j);
    LowBits(Block(c, a), k);
    ShrShr(a, j, k);
    HighBits(Block(c, a), k);
  }

  /** With powers of two, the set is the block number modulo the number of sets, and every set is used. */
  lemma PlacementByPowers(c: CacheConfig, a: Word, j: nat, k: nat)
    requires ValidConfig(c) && c.blockSize == Pow2(j) && NumSets(c) == Pow2(k)
    ensures Block(c, a) == a / c.blockSize && Index(c, a) == a / c.blockSize % NumSets(c)
    ensures Tag(c, a) == a / c.blockSize / NumSets(c)
  {
    Placement(c, a);
    var j', k' :| && Pow2(j') <= c.blockSize < 2 * Pow2(j') && Pow2(k') <= NumSets(c) < 2 * Pow2(k')
      && Block(c, a) == a / Pow2(j') && Index(c, a) == a / Pow2(j') % Pow2(k')
      && Tag(c, a) == a / Pow2(j') / Pow2(k');
    PowersApart(j, j');
    PowersApart(k, k');
  }

  lemma PowersApart(j: nat, k: nat)
    requires Pow2(k) <= Pow2(j) < 2 * Pow2(k)
    ensures j == k
  {
    hide Pow2;
    if j < k {
      Pow2Grows(j, k);
    }
    if k < j {
      Pow2Grows(k, j);
    }
  }

  /** There are as many sets as fit: sets times ways times block size is the cache size but for a remainder that is too
      small for one more set. */
  lemma SetsFillCache(c: CacheConfig)
    requires c.ways >= 1 && c.blockSize >= 1
    ensures NumSets(c) * c.blockSize * c.ways <= c.cacheSize < (NumSets(c) + 1) * c.blockSize * c.ways
  {
    var perWay, sets := Quotient(c.cacheSize, c.ways), NumSets(c);
    assert perWay * c.ways <= c.cacheSize < (perWay + 1) * c.ways by {
      QuotientBounds(c.cacheSize, c.ways);
    }
    assert sets * c.blockSize <= perWay && perWay + 1 <= (sets + 1) * c.blockSize by {
      QuotientBounds(perWay, c.blockSize);
    }
    TimesMonotone(sets * c.blockSize, perWay, c.ways);
    TimesMonotone(perWay + 1, (sets + 1) * c.blockSize, c.ways);
  }

  /** The configurations that can be accessed: all in which one set fits. */
  lemma ValidConfigIff(c: CacheConfig)
    ensures ValidConfig(c) <==> c.ways >= 1 && c.blockSize >= 1 && c.blockSize * c.ways <= c.cacheSize
  {
    hide NumSets;
    if c.ways >= 1 && c.blockSize >= 1 {
      SetsFillCache(c);
      AtLeastOne(NumSets(c), c.blockSize, c.ways, c.cacheSize);
    }
  }

  lemma AtLeastOne(n: nat, b: nat, w: nat, size: nat)
    requires n * b * w <= size < (n + 1) * b * w
    ensures n >= 1 <==> b * w <= size
  {
    if n >= 1 {
      TimesMonotone(1, n, b);
      TimesMonotone(b, n * b, w);
    }
  }

  lemma QuotientBounds(a: Word, b: Word)
    requires b >= 1
    ensures Quotient(a, b) * b <= a < (Quotient(a, b) + 1) * b
  {
    var q := a / b;
    assert q * b + a % b == a;
    assert (q + 1) * b == q * b + b;
  }

  lemma TimesMonotone(a: nat, b: nat, k: nat)
    requires a <= b
    ensures a * k <= b * k
  {
  }

  // ---------- The state machine ----------

  datatype CacheState = CacheState(config: CacheConfig, sets: seq<seq<nat>>, hits: nat, misses: nat)

  predicate WellFormed(s: CacheState) {
    && ValidConfig(s.config)
    && |s.sets| == NumSets(s.config)
  }

  function Cold(c: CacheConfig): (s: CacheState)
    requires ValidConfig(c)
    ensures WellFormed(s)
  {
    CacheState(c, seq(NumSets(c), _ => []), 0, 0)
  }

  predicate Holds(s: CacheState, address: Word)
    requires WellFormed(s)
  {
    Tag(s.config, address) in s.sets[Index(s.config, address)]
  }

  /** `Cache::access`; reads and writes are treated alike. */
  function AccessCache(s: CacheState, address: Word): (s': CacheState)
    requires WellFormed(s)
    ensures WellFormed(s') && s'.config == s.config
  {
    var i := Index(s.config, address);
    s.(sets := s.sets[i := Access(s.sets[i], Tag(s.config, address), s.config.ways)],
       hits := if Holds(s, address) then s.hits + 1 else s.hits,
       misses := if Holds(s, address) then s.misses else s.misses + 1)
  }

  /** The cache after a trace of accesses. */
  function Replay(s: CacheState, trace: seq<Word>): (s': CacheState)
    requires WellFormed(s)
    ensures WellFormed(s') && s'.config == s.config
  {
    if trace == [] then s else AccessCache(Replay(s, trace[..|trace| - 1]), trace[|trace| - 1])
  }

  /** An accessed block is present right after the access. */
  lemma HoldsAfterAccess(s: CacheState, address: Word)
    requires WellFormed(s)
    ensures Holds(AccessCache(s, address), address)
  {
    var i := Index(s.config, address);
    assert AccessCache(s, address).sets[i][0] == Tag(s.config, address);
  }

  lemma MissCounts(s: CacheState, a: Word)
    requires WellFormed(s)
    ensures AccessCache(s, a).misses == s.misses + if Holds(s, a) then 0 else 1
  {
  }

  lemma {:induction false} EveryAccessCounted(s: CacheState, trace: seq<Word>)
    requires WellFormed(s)
    ensures Replay(s, trace).hits + Replay(s, trace).misses == s.hits + s.misses + |trace|
  {
    if trace != [] {
      EveryAccessCounted(s, trace[..|trace| - 1]);
    }
  }

  // ---------- Sets are independent ----------

  /** The tags of the accesses that go to set i, in order. */
  function SetTrace(c: CacheConfig, trace: seq<Word>, i: nat): seq<nat>
    requires ValidConfig(c)
  {
    if trace == [] then []
    else
      var a := trace[|trace| - 1];
      var before := SetTrace(c, trace[..|trace| - 1], i);
      if Index(c, a) == i then before + [Tag(c, a)] else before
  }

  /** Each set behaves as a single LRU list fed with its own accesses, whatever the other sets see. */
  lemma {:induction false} SetsAreIndependent(c: CacheConfig, trace: seq<Word>, i: nat)
    requires ValidConfig(c) && i < NumSets(c)
    ensures Replay(Cold(c), trace).sets[i] == Lru(SetTrace(c, trace, i), c.ways)
  {
    if trace != [] {
      var init, a := trace[..|trace| - 1], trace[|trace| - 1];
      SetsAreIndependent(c, init, i);
      var before := SetTrace(c, init, i);
      if Index(c, a) == i {
        assert (before + [Tag(c, a)])[..|before|] == before;
      }
    }
  }

  /** The reuse-distance law for the cache: after any trace, an access hits exactly when its tag was used
      before in its set and fewer than `ways` distinct other tags of that set were used since. */
  lemma HitIffReused(c: CacheConfig, trace: seq<Word>, address: Word)
    requires ValidConfig(c)
    ensures var ts := SetTrace(c, trace, Index(c, address));
      Holds(Replay(Cold(c), trace), address)
      <==> exists i :: IsLastUse(ts, Tag(c, address), i) && |UsedAfter(ts, i)| < c.ways
  {
    var i := Index(c, address);
    SetsAreIndependent(c, trace, i);
    ReuseDistance(SetTrace(c, trace, i), Tag(c, address), c.ways);
  }

  // ---------- Stack inclusion ----------

  /** Same block size and number of sets, possibly different associativity. */
  predicate SameGeometry(c: CacheConfig, c': CacheConfig) {
    && ValidConfig(c) && ValidConfig(c')
    && c.blockSize == c'.blockSize
    && NumSets(c) == NumSets(c')
  }

  lemma {:induction false} SameSetTrace(c: CacheConfig, c': CacheConfig, trace: seq<Word>, i: nat)
    requires SameGeometry(c, c')
    ensures SetTrace(c, trace, i) == SetTrace(c', trace, i)
  {
    if trace != [] {
      SameSetTrace(c, c', trace[..|trace| - 1], i);
    }
  }

  /** Every set of the less associative cache is a prefix of the same set of the more associative one. */
  lemma SetInclusion(c: CacheConfig, c': CacheConfig, trace: seq<Word>, i: nat)
    requires SameGeometry(c, c') && c.ways <= c'.ways && i < NumSets(c)
    ensures Replay(Cold(c), trace).sets[i] <= Replay(Cold(c'), trace).sets[i]
  {
    SetsAreIndependent(c, trace, i);
    SetsAreIndependent(c', trace, i);
    SameSetTrace(c, c', trace, i);
    LruInclusion(SetTrace(c, trace, i), c.ways, c'.ways);
  }

  /** Stack inclusion: a block the less associative cache holds is held by the more associative one, so every
      hit in the first is a hit in the second. */
  lemma Inclusion(c: CacheConfig, c': CacheConfig, trace: seq<Word>, address: Word)
    requires SameGeometry(c, c') && c.ways <= c'.ways
    ensures Holds(Replay(Cold(c), trace), address) ==> Holds(Replay(Cold(c'), trace), address)
  {
    hide Replay, Index, Tag;
    assert Index(c, address) == Index(c', address) && Tag(c, address) == Tag(c', address) by {
      SameIndexAndTag(c, c', address);
    }
    SetInclusion(c, c', trace, Index(c, address));
  }

  lemma SameIndexAndTag(c: CacheConfig, c': CacheConfig, address: Word)
    requires SameGeometry(c, c')
    ensures Index(c, address) == Index(c', address) && Tag(c, address) == Tag(c', address)
  {
  }

  /** Misses never increase with associativity, on any trace. */
  lemma {:induction false} MoreWaysFewerMisses(c: CacheConfig, c': CacheConfig, trace: seq<Word>)
    requires SameGeometry(c, c') && c.ways <= c'.ways
    ensures Replay(Cold(c'), trace).misses <= Replay(Cold(c), trace).misses
  {
    if trace != [] {
      var init, a := trace[..|trace| - 1], trace[|trace| - 1];
      MoreWaysFewerMisses(c, c', init);
      Inclusion(c, c', init, a);
    }
  }
}
