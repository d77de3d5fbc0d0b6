/** Nodes ordered by XOR distance, and the k nearest of a collection of nodes. */
module Nearest {
  import opened Common
  import opened NodeIds

  datatype PeerAddress = PeerAddress(ip: string, port: nat)

  /** Entries of a bucket, and nodes a lookup keeps. */
  const K: nat := 8

  datatype Entry = Entry(id: NodeId, addr: PeerAddress, lastSeen: int)

  function Away(target: NodeId, e: Entry): (d: nat) {
    Distance(target, e.id)
  }

  predicate Ordered(target: NodeId, s: seq<Entry>) {
    forall i, j :: 0 <= i < j < |s| ==> Away(target, s[i]) <= Away(target, s[j])
  }

  /** What std::sort promises for the comparison by XOR distance. It says nothing about the order
      of nodes at equal distance. */
  ghost predicate SortsByDistance(sort: (NodeId, seq<Entry>) -> seq<Entry>) {
    forall target, s :: Ordered(target, sort(target, s)) && multiset(sort(target, s)) == multiset(s)
  }

  function Take(k: nat, s: seq<Entry>): (r: seq<Entry>) {
    if |s| > k then s[..k] else s
  }

  /** `picked` is, in order, k nearest nodes of the pool, counted with multiplicity. */
  ghost predicate NearestOf(target: NodeId, k: nat, pool: multiset<Entry>, picked: seq<Entry>) {
    && Ordered(target, picked)
    && multiset(picked) <= pool
    && |picked| == Min(k, |pool|)
    && forall x, y :: x in picked && y in pool - multiset(picked) ==> Away(target, x) <= Away(target, y)
  }

  lemma TakeSplit(k: nat, s: seq<Entry>)
    ensures multiset(s) == multiset(Take(k, s)) + multiset(s[|Take(k, s)|..])
    ensures |Take(k, s)| == Min(k, |s|)
  {
    assert s == Take(k, s) + s[|Take(k, s)|..];
  }

  lemma OrderedSplit(target: NodeId, s: seq<Entry>, cut: nat, x: Entry, y: Entry)
    requires Ordered(target, s) && cut <= |s| && x in s[..cut] && y in s[cut..]
    ensures Away(target, x) <= Away(target, y)
  {
    hide Away;
    var i :| 0 <= i < cut && s[i] == x;
    var j :| cut <= j < |s| && s[j] == y;
  }

  lemma OrderedFront(target: NodeId, s: seq<Entry>, cut: nat)
    requires Ordered(target, s) && cut <= |s|
    ensures Ordered(target, s[..cut])
  {
    hide Away;
  }

  /** Sorting everything and cutting off after k gives the k nearest. */
  lemma SortedPrefix(target: NodeId, k: nat, sorted: seq<Entry>)
    requires Ordered(target, sorted)
    ensures NearestOf(target, k, multiset(sorted), Take(k, sorted))
  {
    hide Away, Ordered;
    TakeSplit(k, sorted);
    var cut := |Take(k, sorted)|;
    assert Take(k, sorted) == sorted[..cut];
    OrderedFront(target, sorted, cut);
    hide Take;
    assert multiset(sorted) - multiset(sorted[..cut]) == multiset(sorted[cut..]);
    forall x, y | x in sorted[..cut] && y in multiset(sorted[cut..])
      ensures Away(target, x) <= Away(target, y)
    {
      OrderedSplit(target, sorted, cut, x, y);
    }
  }

  /** If nothing after position i can be in `part`, then `part` fits in front of i. */
  lemma FitsInFront(sorted: seq<Entry>, part: multiset<Entry>, i: nat)
    requires i <= |sorted| && part <= multiset(sorted)
    requires forall e :: e in part ==> e !in sorted[i..]
    ensures |part| <= i
  {
    assert sorted == sorted[..i] + sorted[i..];
    forall e | e in part
      ensures part[e] <= multiset(sorted[..i])[e]
    {
      assert multiset(sorted[i..])[e] == 0;
    }
    var whole := multiset(sorted[..i]);
    assert whole == part + (whole - part);
    assert |whole| == i;
  }

  /** More than i nodes of a list cannot all be in front of position i. */
  lemma Pigeonhole(sorted: seq<Entry>, part: multiset<Entry>, i: nat) returns (e: Entry)
    requires i < |part| && i <= |sorted| && part <= multiset(sorted)
    ensures e in part && e in sorted[i..]
  {
    if forall e :: e in part ==> e !in sorted[i..] {
      FitsInFront(sorted, part, i);
    }
    e :| e in part && e in sorted[i..];
  }

  /** Incremental equals batch: merging new nodes into the k nearest so far, sorting and cutting
      gives k nearest of everything, whatever was cut before. */
  lemma MergeNearest(target: NodeId, k: nat, pool: multiset<Entry>, picked: seq<Entry>,
                     more: multiset<Entry>, sorted: seq<Entry>)
    requires NearestOf(target, k, pool, picked)
    requires Ordered(target, sorted) && multiset(sorted) == multiset(picked) + more
    ensures NearestOf(target, k, pool + more, Take(k, sorted))
  {
    hide Away;
    TakeSplit(k, sorted);
    SortedPrefix(target, k, sorted);
    var merged := Take(k, sorted);
    var rest := multiset(sorted) - multiset(merged);
    assert (pool + more) - multiset(merged) == (pool - multiset(picked)) + rest;
    assert |multiset(sorted)| == |sorted| && |multiset(picked)| == |picked|;
    assert |multiset(sorted)| == |multiset(picked) + more| == |picked| + |more|;
    forall x, y | x in merged && y in (pool + more) - multiset(merged)
      ensures Away(target, x) <= Away(target, y)
    {
      if y !in rest {
        assert y in pool - multiset(picked);
        LeftoverIsFar(target, k, pool, picked, sorted, x, y);
      }
    }
  }

  lemma Rest(pool: multiset<Entry>, part: multiset<Entry>, y: Entry)
    requires part <= pool && y in pool - part
    ensures |part| < |pool|
  {
    assert pool == part + (pool - part);
  }

  lemma LeftoverIsFar(target: NodeId, k: nat, pool: multiset<Entry>, picked: seq<Entry>, sorted: seq<Entry>,
                      x: Entry, y: Entry)
    requires NearestOf(target, k, pool, picked) && Ordered(target, sorted)
    requires multiset(picked) <= multiset(sorted)
    requires x in Take(k, sorted) && y in pool - multiset(picked)
    ensures Away(target, x) <= Away(target, y)
  {
    hide Away, Ordered;
    var i :| 0 <= i < |Take(k, sorted)| && Take(k, sorted)[i] == x;
    Rest(pool, multiset(picked), y);
    var e := Pigeonhole(sorted, multiset(picked), i);
    var j :| i <= j < |sorted| && sorted[j] == e;
    OrderedAt(target, sorted, i, j);
  }

  /** However ties are broken, the distances of the k nearest are the same list. */
  lemma NearestDistances(target: NodeId, k: nat, pool: multiset<Entry>, a: seq<Entry>, b: seq<Entry>)
    requires NearestOf(target, k, pool, a) && NearestOf(target, k, pool, b)
    ensures |a| == |b|
    ensures forall i :: 0 <= i < |a| ==> Away(target, a[i]) == Away(target, b[i])
  {
    forall i | 0 <= i < |a|
      ensures Away(target, a[i]) == Away(target, b[i])
    {
      NotNearer(target, k, pool, a, b, i);
      NotNearer(target, k, pool, b, a, i);
    }
  }

  lemma NotNearer(target: NodeId, k: nat, pool: multiset<Entry>, a: seq<Entry>, b: seq<Entry>, i: nat)
    requires NearestOf(target, k, pool, a) && NearestOf(target, k, pool, b) && i < |a| == |b|
    ensures Away(target, b[i]) <= Away(target, a[i])
  {
    hide Away, Ordered;
    var front := multiset(a[..i + 1]);
    assert a == a[..i + 1] + a[i + 1..];
    assert front <= multiset(a);
    if front <= multiset(b) {
      var e := Pigeonhole(b, front, i);
      FrontIsNear(target, a, i, e);
      var j :| i <= j < |b| && b[j] == e;
      OrderedAt(target, b, i, j);
    } else {
      var e :| e in front && front[e] > multiset(b)[e];
      FrontIsNear(target, a, i, e);
      assert e in pool - multiset(b);
      assert b[i] in multiset(b);
    }
  }

  lemma OrderedCons(target: NodeId, e: Entry, s: seq<Entry>)
    requires Ordered(target, s) && forall x :: x in s ==> Away(target, e) <= Away(target, x)
    ensures Ordered(target, [e] + s)
  {
    hide Away;
  }

  lemma OrderedAt(target: NodeId, s: seq<Entry>, i: nat, j: nat)
    requires Ordered(target, s) && i <= j < |s|
    ensures Away(target, s[i]) <= Away(target, s[j])
  {
  }

  lemma FrontIsNear(target: NodeId, a: seq<Entry>, i: nat, e: Entry)
    requires Ordered(target, a) && i < |a| && e in multiset(a[..i + 1])
    ensures Away(target, e) <= Away(target, a[i])
  {
    hide Away;
    assert e in a[..i + 1];
    var j :| 0 <= j <= i && a[j] == e;
  }

  // ---------------------------------------------------------------------------
  // A sort exists
  // ---------------------------------------------------------------------------

  function Insert(target: NodeId, e: Entry, s: seq<Entry>): (r: seq<Entry>) {
    if s == [] || Away(target, e) <= Away(target, s[0]) then [e] + s
    else [s[0]] + Insert(target, e, s[1..])
  }

  function InsertionSort(target: NodeId, s: seq<Entry>): (r: seq<Entry>) {
    if s == [] then [] else Insert(target, s[0], InsertionSort(target, s[1..]))
  }

  lemma {:induction false} InsertOrdered(target: NodeId, e: Entry, s: seq<Entry>)
    requires Ordered(target, s)
    ensures Ordered(target, Insert(target, e, s))
    ensures multiset(Insert(target, e, s)) == multiset(s) + multiset{e}
  {
    hide Away;
    if s == [] || Away(target, e) <= Away(target, s[0]) {
    } else {
      var tail, r := s[1..], Insert(target, e, s[1..]);
      assert s == [s[0]] + tail;
      InsertOrdered(target, e, tail);
      forall x | x in r
        ensures Away(target, s[0]) <= Away(target, x)
      {
        assert x in multiset(r);
        if x in multiset(tail) {
          var j :| 0 <= j < |tail| && tail[j] == x;
          OrderedAt(target, s, 0, j + 1);
        }
      }
      hide Ordered;
      OrderedCons(target, s[0], r);
    }
  }

  lemma {:induction false} InsertionSortSorts(target: NodeId, s: seq<Entry>)
    ensures Ordered(target, InsertionSort(target, s))
    ensures multiset(InsertionSort(target, s)) == multiset(s)
  {
    if s != [] {
      var tail := s[1..];
      assert InsertionSort(target, s) == Insert(target, s[0], InsertionSort(target, tail));
      InsertionSortSorts(target, tail);
      hide Ordered, Insert, InsertionSort;
      InsertOrdered(target, s[0], InsertionSort(target, tail));
      assert s == [s[0]] + tail;
    }
  }

  /** The promise of std::sort can be kept. */
  lemma SortExists()
    ensures SortsByDistance(InsertionSort)
  {
    forall target, s
      ensures Ordered(target, InsertionSort(target, s)) && multiset(InsertionSort(target, s)) == multiset(s)
    {
      InsertionSortSorts(target, s);
    }
  }
}
