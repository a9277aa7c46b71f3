/** The cache of cache.cpp in its own form: arrays of valid bits, tags and ranks updated in place.
    The class is proved to implement the recency lists of module CacheModel. */
module LruCache {
  import opened Words
  import opened Recency
  import opened CacheModel

  /** The three arrays restricted to one set. */
  datatype Row = Row(valid: seq<bool>, tags: seq<Word>, order: seq<nat>)

  /** The ranks of the first |at| ways are a permutation of 1..|at|; `at[k]` is the way of rank k + 1. */
  ghost predicate Ranked(order: seq<nat>, at: seq<nat>) {
    && |at| <= |order|
    && (forall k :: 0 <= k < |at| ==> at[k] < |at| && order[at[k]] == k + 1)
    && (forall w :: 0 <= w < |at| ==> 1 <= order[w] <= |at|)
    && (forall w, w' :: 0 <= w < w' < |at| ==> order[w] != order[w'])
  }

  /** The tags by rank. */
  ghost predicate Listed(tags: seq<Word>, at: seq<nat>, l: seq<nat>) {
    && |at| == |l|
    && forall k :: 0 <= k < |at| ==> at[k] < |tags| && tags[at[k]] == l[k]
  }

  /** The invariant of a set: the valid ways form a prefix, their ranks are a permutation of 1..|l|, their
      tags by rank are `l`, and those tags are distinct. */
  ghost predicate Represents(r: Row, ways: nat, l: seq<nat>, at: seq<nat>) {
    && |r.valid| == |r.tags| == |r.order| == ways
    && |at| == |l| <= ways
    && (forall w :: 0 <= w < ways ==> (r.valid[w] <==> w < |l|))
    && Ranked(r.order, at)
    && Listed(r.tags, at, l)
    && Distinct(l)
  }

  /** Way i becomes the most recently used; the ways used after it age by one. */
  ghost predicate Promoted(r: Row, r': Row, i: nat)
    requires |r.valid| == |r.tags| == |r.order| && i < |r.valid|
  {
    && r'.valid == r.valid && r'.tags == r.tags && |r'.order| == |r.order|
    && forall j :: 0 <= j < |r.order| ==>
      r'.order[j] == if j == i then 1
                     else if r.valid[j] && r.order[j] < r.order[i] then r.order[j] + 1
                     else r.order[j]
  }

  /** Way n receives the tag; all valid ways age by one. */
  ghost predicate Filled(r: Row, r': Row, n: nat, tag: Word)
    requires |r.valid| == |r.tags| == |r.order| && n < |r.valid|
  {
    && r'.valid == r.valid[n := true] && r'.tags == r.tags[n := tag] && |r'.order| == |r.order|
    && forall j :: 0 <= j < |r.order| ==>
      r'.order[j] == if j == n then 1 else if r.valid[j] then r.order[j] + 1 else r.order[j]
  }

  /** The way of the highest rank receives the tag; ranks rotate. */
  ghost predicate Evicted(r: Row, r': Row, tag: Word)
    requires |r.valid| == |r.tags| == |r.order| && |r.valid| > 0
  {
    && r'.valid == r.valid && |r'.tags| == |r.tags| && |r'.order| == |r.order|
    && (forall j :: 0 <= j < |r.tags| ==> r'.tags[j] == if r.order[j] == |r.order| then tag else r.tags[j])
    && (forall j :: 0 <= j < |r.order| ==> r'.order[j] == r.order[j] % |r.order| + 1)
  }

  lemma PromotedRanks(order: seq<nat>, order': seq<nat>, at: seq<nat>, i: nat)
    requires Ranked(order, at) && i < |at| && |order'| == |order|
    requires forall j :: 0 <= j < |at| ==>
      order'[j] == if j == i then 1 else if order[j] < order[i] then order[j] + 1 else order[j]
    ensures Ranked(order', Promote(at, order[i] - 1))
  {
    var r := order[i];
    var at' := Promote(at, r - 1);
    assert at[r - 1] == i;
    forall k | 0 <= k < |at'|
      ensures at'[k] < |at'| && order'[at'[k]] == k + 1
    {
      if 0 < k <= r - 1 {
        assert at'[k] == at[k - 1] && order[at[k - 1]] == k;
      }
    }
  }

  lemma PromotedRepresents(r: Row, r': Row, ways: nat, l: seq<nat>, at: seq<nat>, i: nat)
    requires Represents(r, ways, l, at) && i < |l| && Promoted(r, r', i)
    ensures Represents(r', ways, Access(l, r.tags[i], ways), Promote(at, r.order[i] - 1))
  {
    hide Distinct, Access, Ranked, Listed;
    var k := RankOf(r.order, at, i);
    PromotedRanks(r.order, r'.order, at, i);
    PromotedList(r.tags, at, l, k);
    AtRank(r.tags, at, l, k);
    PromotedIsAccess(l, k, ways);
  }

  lemma RankOf(order: seq<nat>, at: seq<nat>, i: nat) returns (k: nat)
    requires Ranked(order, at) && i < |at|
    ensures k == order[i] - 1 && k < |at| && at[k] == i
  {
    k := order[i] - 1;
  }

  lemma AtRank(tags: seq<Word>, at: seq<nat>, l: seq<nat>, k: nat)
    requires Listed(tags, at, l) && k < |at|
    ensures |at| == |l| && at[k] < |tags| && tags[at[k]] == l[k]
  {
  }

  lemma PromotedList(tags: seq<Word>, at: seq<nat>, l: seq<nat>, k: nat)
    requires Listed(tags, at, l) && k < |at|
    ensures |at| == |l| && Listed(tags, Promote(at, k), Promote(l, k))
  {
  }

  lemma PromotedIsAccess(l: seq<nat>, k: nat, ways: nat)
    requires Distinct(l) && k < |l| <= ways
    ensures Access(l, l[k], ways) == Promote(l, k) && Distinct(Promote(l, k))
  {
    IndexUnique(l, k);
    TouchKeepsDistinct(l, l[k]);
  }

  lemma FilledRepresents(r: Row, r': Row, ways: nat, l: seq<nat>, at: seq<nat>, tag: Word)
    requires Represents(r, ways, l, at) && |l| < ways && tag !in l && Filled(r, r', |l|, tag)
    ensures Represents(r', ways, Access(l, tag, ways), [|l|] + at)
  {
    assert Access(l, tag, ways) == [tag] + l;
  }

  lemma EvictedRanks(order: seq<nat>, order': seq<nat>, at: seq<nat>)
    requires Ranked(order, at) && 0 < |at| == |order| == |order'|
    requires forall j :: 0 <= j < |at| ==> order'[j] == order[j] % |at| + 1
    ensures Ranked(order', [at[|at| - 1]] + at[..|at| - 1])
  {
    forall j | 0 <= j < |at|
      ensures order'[j] == if order[j] == |at| then 1 else order[j] + 1
    {
      SuccessorModulo(order[j], |at|);
    }
  }

  lemma EvictedRepresents(r: Row, r': Row, ways: nat, l: seq<nat>, at: seq<nat>, tag: Word)
    requires Represents(r, ways, l, at) && ways > 0 && |l| == ways && tag !in l && Evicted(r, r', tag)
    ensures Represents(r', ways, Access(l, tag, ways), [at[ways - 1]] + at[..ways - 1])
  {
    var l', at' := [tag] + l[..ways - 1], [at[ways - 1]] + at[..ways - 1];
    assert Access(l, tag, ways) == l';
    EvictedRanks(r.order, r'.order, at);
    assert Listed(r'.tags, at', l');
  }

  lemma SuccessorModulo(x: nat, n: nat)
    requires 1 <= x <= n
    ensures x % n + 1 == if x == n then 1 else x + 1
  {
  }

  /** In a represented row a tag is found exactly when the list contains it, and in one way only. */
  lemma FoundIffListed(r: Row, ways: nat, l: seq<nat>, at: seq<nat>, tag: Word)
    requires Represents(r, ways, l, at)
    ensures tag in l <==> exists w :: 0 <= w < ways && r.valid[w] && r.tags[w] == tag
    ensures TagsUnique(r)
  {
    forall w | 0 <= w < |l|
      ensures r.tags[w] == l[r.order[w] - 1]
    {
      assert at[r.order[w] - 1] == w;
    }
    if tag in l {
      var k :| 0 <= k < |l| && l[k] == tag;
      assert r.tags[at[k]] == tag;
    }
  }

  lemma PrefixValid(r: Row, ways: nat, l: seq<nat>, at: seq<nat>)
    requires Represents(r, ways, l, at)
    ensures |r.valid| == |r.tags| == |r.order| == ways && |at| == |l| <= ways
    ensures forall w :: 0 <= w < ways ==> (r.valid[w] <==> w < |l|)
    ensures forall w :: 0 <= w < |l| ==> 1 <= r.order[w] <= |l|
  {
  }

  ghost predicate TagsUnique(r: Row)
    requires |r.valid| == |r.tags|
  {
    forall w, w' :: 0 <= w < |r.valid| && 0 <= w' < |r.valid| && r.valid[w] && r.valid[w'] && w != w' ==>
      r.tags[w] != r.tags[w']
  }

  class Cache {
    const config: CacheConfig
    const numSets: nat
    const tags: array2<Word>
    const order: array2<nat>
    const valid: array2<bool>
    var hits: nat
    var misses: nat
    ghost var state: CacheState
    ghost var recency: seq<seq<nat>>  // for every set, its ways from most to least recently used

    ghost const Repr: set<object> := {this, tags, order, valid}

    ghost predicate Valid()
      reads this, tags, order, valid
    {
      && ValidConfig(config) && numSets == NumSets(config)
      && Shaped()
      && state.config == config && state.hits == hits && state.misses == misses
      && |state.sets| == |recency| == numSets
      && AllRepresent(state.sets, recency)
    }

    ghost predicate AllRepresent(sets: seq<seq<nat>>, rec: seq<seq<nat>>)
      requires Shaped() && |sets| == |rec| == numSets
      reads tags, order, valid
    {
      forall i :: 0 <= i < numSets ==> Represents(RowAt(i), config.ways, sets[i], rec[i])
    }

    ghost function RowAt(i: nat): Row
      requires i < tags.Length0 && i < order.Length0 && i < valid.Length0
      reads tags, order, valid
    {
      Row(seq(valid.Length1, w requires 0 <= w < valid.Length1 reads valid => valid[i, w]),
          seq(tags.Length1, w requires 0 <= w < tags.Length1 reads tags => tags[i, w]),
          seq(order.Length1, w requires 0 <= w < order.Length1 reads order => order[i, w]))
    }

    /** The tables of a cache size too small for one set are empty; such a cache cannot be accessed. */
    constructor (configParam: CacheConfig)
      requires configParam.ways >= 1 && configParam.blockSize >= 1
      ensures config == configParam && numSets == NumSets(configParam) && Shaped()
      ensures hits == 0 && misses == 0
      ensures ValidConfig(configParam) ==> Valid() && state == Cold(configParam)
      ensures fresh(Repr - {this})
    {
      config := configParam;
      numSets := NumSets(configParam);
      tags := new Word[NumSets(configParam), configParam.ways]((i, j) => 0);
      order := new nat[NumSets(configParam), configParam.ways]((i, j) => 0);
      valid := new bool[NumSets(configParam), configParam.ways]((i, j) => false);
      hits, misses := 0, 0;
      state := CacheState(configParam, seq(NumSets(configParam), _ => []), 0, 0);
      recency := seq(NumSets(configParam), _ => []);
      new;
      forall i | 0 <= i < numSets
        ensures Represents(RowAt(i), config.ways, state.sets[i], recency[i])
      {
      }
    }

    /** Counts the bits of a power of two; for other numbers it rounds down. */
    static method CountBitsForPowerOfTwo(n: Word) returns (count: nat)
      ensures count == CountBits(n)
    {
      count := 0;
      var m := n;
      while m > 1
        invariant count + CountBits(m) == CountBits(n)
      {
        m := m / 2;
        count := count + 1;
      }
    }

    method Locate(address: Word) returns (index: nat, tag: Word)
      requires ValidConfig(config) && numSets == NumSets(config)
      ensures index == Index(config, address) && tag == Tag(config, address)
    {
      var numBlockOffsetBits := CountBitsForPowerOfTwo(config.blockSize);
      var numIndexBits := CountBitsForPowerOfTwo(numSets);
      index := Low(Shr(address, numBlockOffsetBits), numIndexBits);
      tag := Shr(address, numBlockOffsetBits + numIndexBits);
    }

    method Access(address: Word) returns (hit: bool)
      requires Valid()
      modifies this, tags, order, valid
      ensures Valid()
      ensures hit == Holds(old(state), address)
      ensures state == AccessCache(old(state), address) && state.config == config
    {
      hide AllRepresent, Index, Tag, Recency.Access, CountBits, NumSets;
      var index, tag := Locate(address);
      ghost var at;
      hit, at := AccessRow(index, tag, state.sets, recency);
      hits := hits + if hit then 1 else 0;
      misses := misses + if hit then 0 else 1;
      recency := recency[index := at];
      state := AccessCache(state, address);
    }

    method AccessRow(index: nat, tag: Word, ghost sets: seq<seq<nat>>, ghost rec: seq<seq<nat>>)
      returns (hit: bool, ghost at: seq<nat>)
      requires Shaped() && index < numSets == |sets| == |rec| && AllRepresent(sets, rec)
      modifies tags, order, valid
      ensures hit <==> tag in sets[index]
      ensures AllRepresent(sets[index := Recency.Access(sets[index], tag, config.ways)], rec[index := at])
    {
      hide Represents, Recency.Access;
      hit, at := AccessSet(index, tag, sets[index], rec[index]);
    }

    /** The access restricted to one set; the other sets are untouched. */
    method AccessSet(index: nat, tag: Word, ghost l: seq<nat>, ghost at: seq<nat>)
      returns (hit: bool, ghost at': seq<nat>)
      requires Shaped() && index < numSets
      requires Represents(RowAt(index), config.ways, l, at)
      modifies tags, order, valid
      ensures hit <==> tag in l
      ensures Represents(RowAt(index), config.ways, Recency.Access(l, tag, config.ways), at')
      ensures forall s :: 0 <= s < numSets && s != index ==> RowAt(s) == old(RowAt(s))
    {
      hide Represents, Promoted, Filled, Evicted;
      ghost var row := RowAt(index);
      FoundIffListed(row, config.ways, l, at, tag);
      PrefixValid(row, config.ways, l, at);
      assert forall w :: 0 <= w < config.ways ==> valid[index, w] == row.valid[w];
      ghost var way: nat;
      hit, way := Lookup(index, tag);
      if hit {
        PromotedRepresents(row, RowAt(index), config.ways, l, at, way);
        at' := Promote(at, row.order[way] - 1);
      } else {
        var numValid := CountValid(index, |l|);
        if numValid < config.ways {
          Fill(index, tag, numValid);
          FilledRepresents(row, RowAt(index), config.ways, l, at, tag);
          at' := [|l|] + at;
        } else {
          Evict(index, tag);
          EvictedRepresents(row, RowAt(index), config.ways, l, at, tag);
          at' := [at[config.ways - 1]] + at[..config.ways - 1];
        }
      }
    }

    ghost predicate Shaped()
    {
      && config.ways >= 1
      && tags.Length0 == order.Length0 == valid.Length0 == numSets
      && tags.Length1 == order.Length1 == valid.Length1 == config.ways
    }

    /** The first loop: on a hit the ranks are updated. The loop runs on, but no second way can match. */
    method Lookup(index: nat, tag: Word) returns (hit: bool, ghost way: nat)
      requires Shaped() && index < numSets
      requires TagsUnique(RowAt(index))
      modifies order
      ensures hit <==> exists w :: 0 <= w < config.ways && valid[index, w] && tags[index, w] == tag
      ensures hit ==> way < config.ways && valid[index, way] && tags[index, way] == tag
                      && Promoted(old(RowAt(index)), RowAt(index), way)
      ensures !hit ==> RowAt(index) == old(RowAt(index))
      ensures forall s :: 0 <= s < numSets && s != index ==> RowAt(s) == old(RowAt(s))
    {
      hit, way := false, 0;
      ghost var row := RowAt(index);
      for i := 0 to config.ways
        invariant forall s, j :: 0 <= s < numSets && s != index && 0 <= j < config.ways ==>
          order[s, j] == old(order[s, j])
        invariant !hit ==> forall j :: 0 <= j < config.ways ==> order[index, j] == old(order[index, j])
        invariant !hit ==> forall w :: 0 <= w < i ==> !(valid[index, w] && tags[index, w] == tag)
        invariant hit ==> way < i && valid[index, way] && tags[index, way] == tag
        invariant hit ==> forall j :: 0 <= j < config.ways ==>
          order[index, j] == if j == way then 1
                             else if valid[index, j] && old(order[index, j]) < old(order[index, way])
                                  then old(order[index, j]) + 1
                             else old(order[index, j])
      {
        if valid[index, i] && tags[index, i] == tag {
          assert row.valid[i] && row.tags[i] == tag;
          assert hit ==> row.valid[way] && row.tags[way] == tag;
          hit, way := true, i;
          AgeBelow(index, i);
          order[index, i] := 1;
        }
      }
    }

    /** Ages the valid ways ranked before way i. */
    method AgeBelow(index: nat, i: nat)
      requires Shaped() && index < numSets && i < config.ways
      modifies order
      ensures forall s, j :: 0 <= s < numSets && 0 <= j < config.ways ==>
        order[s, j] == if s == index && valid[index, j] && old(order[index, j]) < old(order[index, i])
                       then old(order[index, j]) + 1 else old(order[s, j])
    {
      for j := 0 to config.ways
        invariant forall s, k :: 0 <= s < numSets && 0 <= k < config.ways ==>
          order[s, k] == if s == index && k < j && valid[index, k] && old(order[index, k]) < old(order[index, i])
                         then old(order[index, k]) + 1 else old(order[s, k])
      {
        if valid[index, j] && order[index, j] < order[index, i] {
          order[index, j] := order[index, j] + 1;
        }
      }
    }

    method CountValid(index: nat, ghost n: nat) returns (numValid: nat)
      requires Shaped() && index < numSets && n <= config.ways
      requires forall w :: 0 <= w < config.ways ==> (valid[index, w] <==> w < n)
      ensures numValid == n
    {
      numValid := 0;
      for i := 0 to config.ways
        invariant numValid == if i < n then i else n
      {
        if valid[index, i] {
          numValid := numValid + 1;
        }
      }
    }

    /** A miss with a free way: everything ages, the first invalid way is filled. */
    method Fill(index: nat, tag: Word, ghost n: nat)
      requires Shaped() && index < numSets && n < config.ways
      requires forall w :: 0 <= w < config.ways ==> (valid[index, w] <==> w < n)
      modifies tags, order, valid
      ensures Filled(old(RowAt(index)), RowAt(index), n, tag)
      ensures forall s :: 0 <= s < numSets && s != index ==> RowAt(s) == old(RowAt(s))
    {
      for i := 0 to config.ways
        invariant forall s, k :: 0 <= s < numSets && 0 <= k < config.ways ==>
          order[s, k] == if s == index && k < i && valid[index, k] then old(order[s, k]) + 1 else old(order[s, k])
        invariant forall s, k :: 0 <= s < numSets && 0 <= k < config.ways ==>
          valid[s, k] == old(valid[s, k]) && tags[s, k] == old(tags[s, k])
      {
        if valid[index, i] {
          order[index, i] := order[index, i] + 1;
        }
      }
      var i := 0;
      while valid[index, i]
        invariant i <= n
        decreases n - i
      {
        i := i + 1;
      }
      tags[index, i] := tag;
      order[index, i] := 1;
      valid[index, i] := true;
      assert RowAt(index).valid == old(RowAt(index).valid)[n := true];
      assert RowAt(index).tags == old(RowAt(index).tags)[n := tag];
    }

    /** A miss in a full set: the least recently used way is overwritten and the ranks rotate. */
    method Evict(index: nat, tag: Word)
      requires Shaped() && index < numSets
      modifies tags, order
      ensures Evicted(old(RowAt(index)), RowAt(index), tag)
      ensures forall s :: 0 <= s < numSets && s != index ==> RowAt(s) == old(RowAt(s))
    {
      for i := 0 to config.ways
        invariant forall s, k :: 0 <= s < numSets && 0 <= k < config.ways ==>
          tags[s, k] == if s == index && k < i && order[index, k] == config.ways then tag else old(tags[s, k])
        invariant forall s, k :: 0 <= s < numSets && 0 <= k < config.ways ==> order[s, k] == old(order[s, k])
      {
        if order[index, i] == config.ways {
          tags[index, i] := tag;
        }
      }
      for j := 0 to config.ways
        invariant forall s, k :: 0 <= s < numSets && 0 <= k < config.ways ==>
          tags[s, k] == if s == index && old(order[index, k]) == config.ways then tag else old(tags[s, k])
        invariant forall s, k :: 0 <= s < numSets && 0 <= k < config.ways ==>
          order[s, k] == if s == index && k < j then old(order[s, k]) % config.ways + 1 else old(order[s, k])
      {
        order[index, j] := order[index, j] % config.ways + 1;
      }
    }
  }
}
