/** One cache set as a list of tags, most recently used first, and what holds over every trace of
    accesses to it: the least-recently-used policy as move-to-front on a list cut off at `ways`. */
module Recency {
  ghost predicate Distinct<T>(l: seq<T>) {
    forall i, j :: 0 <= i < j < |l| ==> l[i] != l[j]
  }

  function IndexOf(l: seq<nat>, t: nat): (i: nat)
    requires t in l
    ensures i < |l| && l[i] == t
    ensures forall j :: 0 <= j < i ==> l[j] != t
  {
    if l[0] == t then 0 else 1 + IndexOf(l[1..], t)
  }

  /** The element at position i moved to the front. */
  function Promote<T>(l: seq<T>, i: nat): (r: seq<T>)
    requires i < |l|
    ensures |r| == |l|
    ensures forall j :: 0 <= j < |l| ==> r[j] == if j == 0 then l[i] else if j <= i then l[j - 1] else l[j]
  {
    [l[i]] + l[..i] + l[i + 1..]
  }

  /** The list after tag t has been used. */
  function Touch(l: seq<nat>, t: nat): seq<nat> {
    if t in l then Promote(l, IndexOf(l, t)) else [t] + l
  }

  function Truncate<T>(l: seq<T>, w: nat): seq<T> {
    if |l| <= w then l else l[..w]
  }

  /** One access to a set of w ways: the least recently used tag falls off the end. */
  function Access(l: seq<nat>, t: nat, w: nat): seq<nat> {
    Truncate(Touch(l, t), w)
  }

  /** The set after a trace of accesses, starting empty. */
  function Lru(ts: seq<nat>, w: nat): seq<nat> {
    if ts == [] then [] else Access(Lru(ts[..|ts| - 1], w), ts[|ts| - 1], w)
  }

  /** All tags of a trace, most recently used first: the set with unboundedly many ways. */
  function Stack(ts: seq<nat>): seq<nat> {
    if ts == [] then [] else Touch(Stack(ts[..|ts| - 1]), ts[|ts| - 1])
  }

  // ---------- Lists ----------

  lemma TouchKeepsDistinct(l: seq<nat>, t: nat)
    requires Distinct(l)
    ensures Distinct(Touch(l, t))
    ensures forall x :: x in Touch(l, t) <==> x == t || x in l
  {
    var r := Touch(l, t);
    if t in l {
      var i := IndexOf(l, t);
      forall x | x in l
        ensures x in r
      {
        var j :| 0 <= j < |l| && l[j] == x;
        assert r[if j == i then 0 else if j < i then j + 1 else j] == x;
      }
    } else {
      assert forall j :: 0 < j < |r| ==> r[j] == l[j - 1];
      assert forall x :: x in r <==> x == t || x in l;
    }
  }

  lemma {:induction false} StackFacts(ts: seq<nat>)
    ensures Distinct(Stack(ts))
    ensures forall x :: x in Stack(ts) <==> x in ts
  {
    if ts != [] {
      var init, t := ts[..|ts| - 1], ts[|ts| - 1];
      StackFacts(init);
      TouchKeepsDistinct(Stack(init), t);
      assert ts == init + [t];
    }
  }

  /** Truncating before an access makes no difference after it. */
  lemma TruncateFirst(s: seq<nat>, t: nat, w: nat)
    requires Distinct(s) && w >= 1
    ensures Access(Truncate(s, w), t, w) == Truncate(Touch(s, t), w)
  {
    var l := Truncate(s, w);
    var r, r' := Touch(l, t), Touch(s, t);
    if t in l {
      var i := IndexOf(l, t);
      assert s[i] == t;
      assert IndexOf(s, t) == i;
      assert Truncate(r', w) == r;
    } else if t in s {
      assert IndexOf(s, t) >= w;
      assert Truncate(r', w) == Truncate(r, w);
    } else {
      assert Truncate(r', w) == Truncate(r, w);
    }
  }

  /** A set of w ways holds exactly the w most recently used tags, in order. */
  lemma {:induction false} LruIsStackPrefix(ts: seq<nat>, w: nat)
    requires w >= 1
    ensures Lru(ts, w) == Truncate(Stack(ts), w)
  {
    if ts != [] {
      var init, t := ts[..|ts| - 1], ts[|ts| - 1];
      LruIsStackPrefix(init, w);
      StackFacts(init);
      TruncateFirst(Stack(init), t, w);
    }
  }

  // ---------- Stack inclusion ----------

  /** With more ways, the list only gets longer at its old end: contents are included, so hits are kept. */
  lemma LruInclusion(ts: seq<nat>, w: nat, w': nat)
    requires 1 <= w <= w'
    ensures Lru(ts, w) <= Lru(ts, w')
    ensures forall x :: x in Lru(ts, w) ==> x in Lru(ts, w')
  {
    LruIsStackPrefix(ts, w);
    LruIsStackPrefix(ts, w');
  }

  // ---------- Reuse distance ----------

  ghost predicate IsLastUse(ts: seq<nat>, t: nat, i: nat) {
    i < |ts| && ts[i] == t && forall k :: i < k < |ts| ==> ts[k] != t
  }

  /** The distinct tags used after position i. */
  ghost function UsedAfter(ts: seq<nat>, i: nat): set<nat>
    requires i < |ts|
  {
    Elements(ts[i + 1..])
  }

  ghost function Elements(l: seq<nat>): set<nat> {
    set x | x in l
  }

  lemma {:induction false} DistinctCount(l: seq<nat>)
    requires Distinct(l)
    ensures |Elements(l)| == |l|
  {
    if l != [] {
      var init, x := l[..|l| - 1], l[|l| - 1];
      DistinctCount(init);
      assert Elements(l) == Elements(init) + {x};
      assert x !in init;
    }
  }

  /** In front of t on the stack stand exactly the tags used since t was. */
  lemma {:induction false} StackOrdersByUse(ts: seq<nat>, t: nat, i: nat)
    requires IsLastUse(ts, t, i)
    ensures t in Stack(ts)
    ensures Elements(Stack(ts)[..IndexOf(Stack(ts), t)]) == UsedAfter(ts, i)
  {
    StackFacts(ts);
    var n := |ts| - 1;
    var init, u := ts[..n], ts[n];
    var s, s' := Stack(init), Stack(ts);
    StackFacts(init);
    if i == n {
      assert s'[0] == t;
      assert IndexOf(s', t) == 0;
    } else {
      assert ts[i + 1..] == init[i + 1..] + [u];
      StackOrdersByUse(init, t, i);
      FrontAfterTouch(s, t, u);
      assert UsedAfter(ts, i) == UsedAfter(init, i) + {u};
    }
  }

  lemma FrontAfterTouch(s: seq<nat>, t: nat, u: nat)
    requires Distinct(s) && t in s && u != t
    ensures t in Touch(s, u)
    ensures Elements(Touch(s, u)[..IndexOf(Touch(s, u), t)]) == Elements(s[..IndexOf(s, t)]) + {u}
  {
    hide IndexOf;
    TouchKeepsDistinct(s, u);
    if u in s && IndexOf(s, u) < IndexOf(s, t) {
      FrontKept(s, IndexOf(s, t), IndexOf(s, u));
    } else {
      FrontGrows(s, IndexOf(s, t), u);
    }
  }

  lemma IndexUnique(l: seq<nat>, i: nat)
    requires Distinct(l) && i < |l|
    ensures IndexOf(l, l[i]) == i
  {
  }

  /** Promoting within the first m elements leaves the rest alone. */
  lemma PromotePrefix(l: seq<nat>, m: nat, k: nat)
    requires k < m <= |l|
    ensures Promote(l, k)[..m] == Promote(l[..m], k)
  {
    var r, r' := Promote(l, k)[..m], Promote(l[..m], k);
    forall j | 0 <= j < m
      ensures r[j] == r'[j]
    {
      assert r[j] == Promote(l, k)[j];
    }
  }

  /** A tag behind t moves to the front. */
  lemma FrontGrows(s: seq<nat>, i: nat, u: nat)
    requires Distinct(s) && i < |s| && s[i] != u
    requires u !in s[..i]
    ensures Distinct(Touch(s, u)) && s[i] in Touch(s, u)
    ensures Elements(Touch(s, u)[..IndexOf(Touch(s, u), s[i])]) == Elements(s[..i]) + {u}
  {
    TouchKeepsDistinct(s, u);
    var s' := Touch(s, u);
    assert s'[i + 1] == s[i];
    IndexUnique(s', i + 1);
    assert s'[..i + 1] == [u] + s[..i];
  }

  /** A tag in front of t moves to the front. */
  lemma FrontKept(s: seq<nat>, i: nat, k: nat)
    requires Distinct(s) && k < i < |s|
    ensures Distinct(Touch(s, s[k])) && s[i] in Touch(s, s[k])
    ensures Elements(Touch(s, s[k])[..IndexOf(Touch(s, s[k]), s[i])]) == Elements(s[..i]) + {s[k]}
  {
    hide IndexOf, Elements;
    TouchKeepsDistinct(s, s[k]);
    IndexUnique(s, k);
    var s' := Touch(s, s[k]);
    assert s'[i] == s[i];
    IndexUnique(s', i);
    PromoteKeepsElements(s[..i], k);
    PromotePrefix(s, i, k);
  }

  lemma PromoteKeepsElements(l: seq<nat>, k: nat)
    requires k < |l|
    ensures Elements(Promote(l, k)) == Elements(l) == Elements(l) + {l[k]}
  {
    var r := Promote(l, k);
    forall x | x in l
      ensures x in r
    {
      var j :| 0 <= j < |l| && l[j] == x;
      assert r[if j == k then 0 else if j < k then j + 1 else j] == x;
    }
  }

  /** The reuse-distance law: t is present exactly when it was used before and fewer than w distinct
      other tags have been used since its last use. */
  lemma ReuseDistance(ts: seq<nat>, t: nat, w: nat)
    requires w >= 1
    ensures t in Lru(ts, w) <==> exists i :: IsLastUse(ts, t, i) && |UsedAfter(ts, i)| < w
  {
    LruIsStackPrefix(ts, w);
    StackFacts(ts);
    if t in ts {
      var i := LastUse(ts, t);
      StackOrdersByUse(ts, t, i);
      var s := Stack(ts);
      var d := IndexOf(s, t);
      DistinctCount(s[..d]);
      assert |UsedAfter(ts, i)| == d;
      assert t in Truncate(s, w) <==> d < w;
      assert forall k: nat :: IsLastUse(ts, t, k) ==> k == i;
    }
  }

  lemma {:induction false} LastUse(ts: seq<nat>, t: nat) returns (i: nat)
    requires t in ts
    ensures IsLastUse(ts, t, i)
  {
    var n := |ts| - 1;
    if ts[n] == t {
      i := n;
    } else {
      assert ts == ts[..n] + [ts[n]];
      i := LastUse(ts[..n], t);
    }
  }
}
