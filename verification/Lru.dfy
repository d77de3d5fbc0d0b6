/** The fixed-capacity cache with least-recently-used eviction (inc/lru_cache.h). */
module Lru {
  import opened Common

  datatype Pair<K, V> = Pair(key: K, value: V)

  // ---------------------------------------------------------------------------
  // The cache as a list of pairs, most recently used first
  // ---------------------------------------------------------------------------

  function Keys<K, V>(items: seq<Pair<K, V>>): (ks: seq<K>) {
    if items == [] then [] else [items[0].key] + Keys(items[1..])
  }

  function Without<K(==), V>(items: seq<Pair<K, V>>, k: K): (r: seq<Pair<K, V>>) {
    if items == [] then []
    else (if items[0].key == k then [] else [items[0]]) + Without(items[1..], k)
  }

  /** The value stored for a key; of several, the first. */
  function Find<K(==), V>(items: seq<Pair<K, V>>, k: K): (v: Option<V>) {
    if items == [] then None else if items[0].key == k then Some(items[0].value) else Find(items[1..], k)
  }

  function Evicted<K, V>(items: seq<Pair<K, V>>, capacity: nat): (r: seq<Pair<K, V>>) {
    if |items| >= capacity && items != [] then items[..|items| - 1] else items
  }

  function Get<K(==), V>(items: seq<Pair<K, V>>, k: K): (r: seq<Pair<K, V>>) {
    match Find(items, k)
    case None => items
    case Some(v) => [Pair(k, v)] + Without(items, k)
  }

  function Put<K(==), V>(items: seq<Pair<K, V>>, capacity: nat, k: K, v: V): (r: seq<Pair<K, V>>) {
    if Find(items, k).Some? then [Pair(k, v)] + Without(items, k)
    else [Pair(k, v)] + Evicted(items, capacity)
  }

  ghost predicate Unique<T>(s: seq<T>) {
    forall i, j :: 0 <= i < j < |s| ==> s[i] != s[j]
  }

  lemma UniqueCons<T>(x: T, s: seq<T>)
    requires Unique(s) && x !in s
    ensures Unique([x] + s)
  {
    var r := [x] + s;
    forall i, j | 0 <= i < j < |r|
      ensures r[i] != r[j]
    {
      assert r[j] == s[j - 1];
    }
  }

  lemma UniqueTail<T>(s: seq<T>)
    requires Unique(s) && s != []
    ensures Unique(s[1..]) && s[0] !in s[1..]
  {
    forall i, j | 0 <= i < j < |s[1..]|
      ensures s[1..][i] != s[1..][j]
    {
      assert s[i + 1] != s[j + 1];
    }
    forall j | 0 <= j < |s[1..]|
      ensures s[1..][j] != s[0]
    {
      assert s[1..][j] == s[j + 1];
    }
  }

  lemma {:induction false} KeysAt<K, V>(items: seq<Pair<K, V>>)
    ensures |Keys(items)| == |items|
    ensures forall i :: 0 <= i < |items| ==> Keys(items)[i] == items[i].key
  {
    if items != [] {
      KeysAt(items[1..]);
    }
  }

  lemma {:induction false} FindSpec<K, V>(items: seq<Pair<K, V>>, k: K)
    ensures Find(items, k).Some? <==> k in Keys(items)
  {
    if items != [] {
      FindSpec(items[1..], k);
    }
  }

  function Drop<K(==)>(ks: seq<K>, k: K): (r: seq<K>) {
    if ks == [] then [] else (if ks[0] == k then [] else [ks[0]]) + Drop(ks[1..], k)
  }

  lemma {:induction false} WithoutKeys<K, V>(items: seq<Pair<K, V>>, k: K)
    ensures Keys(Without(items, k)) == Drop(Keys(items), k)
  {
    if items != [] {
      WithoutKeys(items[1..], k);
      var rest := Without(items[1..], k);
      assert Keys(items)[1..] == Keys(items[1..]);
      if items[0].key == k {
        assert Without(items, k) == rest;
      } else {
        assert Without(items, k) == [items[0]] + rest;
        KeysCons(items[0], rest);
      }
    }
  }

  lemma {:induction false} DropSpec<K>(ks: seq<K>, k: K)
    ensures forall x :: x in Drop(ks, k) <==> x in ks && x != k
    ensures |Drop(ks, k)| <= |ks|
    ensures Unique(ks) ==> Unique(Drop(ks, k))
  {
    if ks != [] {
      DropSpec(ks[1..], k);
      var rest := Drop(ks[1..], k);
      if ks[0] == k {
        assert Drop(ks, k) == rest;
      } else {
        assert Drop(ks, k) == [ks[0]] + rest;
        if Unique(ks) {
          UniqueTail(ks);
          UniqueCons(ks[0], rest);
        }
      }
    }
  }

  lemma {:induction false} DropAbsent<K>(ks: seq<K>, k: K)
    requires k !in ks
    ensures Drop(ks, k) == ks
  {
    if ks != [] {
      DropAbsent(ks[1..], k);
    }
  }

  lemma {:induction false} DropConcat<K>(a: seq<K>, b: seq<K>, k: K)
    ensures Drop(a + b, k) == Drop(a, k) + Drop(b, k)
  {
    if a == [] {
      assert a + b == b;
    } else {
      DropConcat(a[1..], b, k);
      assert (a + b)[1..] == a[1..] + b;
      var head := if a[0] == k then [] else [a[0]];
      assert Drop(a + b, k) == head + Drop(a[1..] + b, k);
      assert Drop(a, k) == head + Drop(a[1..], k);
      hide Drop;
      ConcatAssoc(head, Drop(a[1..], k), Drop(b, k));
    }
  }

  /** Removing the one occurrence of k closes the gap it leaves. */
  lemma {:induction false} DropAt<K>(ks: seq<K>, p: nat)
    requires Unique(ks) && p < |ks|
    ensures Drop(ks, ks[p]) == ks[..p] + ks[p + 1..]
  {
    hide Unique;
    UniqueTail(ks);
    var tail := ks[1..];
    if p == 0 {
      DropAbsent(tail, ks[0]);
    } else {
      assert tail[p - 1] in tail;
      assert Drop(ks, ks[p]) == [ks[0]] + Drop(tail, tail[p - 1]);
      hide Drop;
      DropAt(tail, p - 1);
      assert ks[..p] == [ks[0]] + tail[..p - 1];
      assert ks[p + 1..] == tail[p..];
    }
  }

  // ---------------------------------------------------------------------------
  // The use history
  // ---------------------------------------------------------------------------

  datatype Op<K, V> = PutOp(key: K, value: V) | GetOp(key: K)

  function Apply<K(==), V>(items: seq<Pair<K, V>>, capacity: nat, op: Op<K, V>): (r: seq<Pair<K, V>>) {
    match op
    case PutOp(k, v) => Put(items, capacity, k, v)
    case GetOp(k) => Get(items, k)
  }

  function Run<K(==), V>(capacity: nat, ops: seq<Op<K, V>>): (r: seq<Pair<K, V>>) {
    if ops == [] then [] else Apply(Run(capacity, ops[..|ops| - 1]), capacity, ops[|ops| - 1])
  }

  /** The different keys of a history, in order of first appearance. */
  function Distinct<K(==)>(h: seq<K>): (r: seq<K>) {
    if h == [] then [] else [h[0]] + Drop(Distinct(h[1..]), h[0])
  }

  function Prefix<T>(n: nat, s: seq<T>): (r: seq<T>) {
    if |s| <= n then s else s[..n]
  }

  /** The keys used, latest first. A get counts only when it finds its key among the `capacity`
      most recently used ones. */
  function Uses<K(==), V>(capacity: nat, ops: seq<Op<K, V>>): (h: seq<K>) {
    if ops == [] then []
    else
      var before := Uses(capacity, ops[..|ops| - 1]);
      match ops[|ops| - 1]
      case PutOp(k, _) => [k] + before
      case GetOp(k) => if k in Prefix(capacity, Distinct(before)) then [k] + before else before
  }

  /** The value of the latest put for a key. */
  function LastPut<K(==), V>(ops: seq<Op<K, V>>, k: K): (v: Option<V>) {
    if ops == [] then None
    else
      var op := ops[|ops| - 1];
      if op.PutOp? && op.key == k then Some(op.value) else LastPut(ops[..|ops| - 1], k)
  }

  lemma {:induction false} DistinctSpec<K>(h: seq<K>)
    ensures Unique(Distinct(h))
    ensures forall x :: x in Distinct(h) <==> x in h
  {
    if h != [] {
      DistinctSpec(h[1..]);
      DropSpec(Distinct(h[1..]), h[0]);
      UniqueCons(h[0], Drop(Distinct(h[1..]), h[0]));
    }
  }

  /** One more use of k, seen through the window of the `capacity` latest distinct keys. */
  lemma UseStep<K>(d: seq<K>, capacity: nat, k: K)
    requires Unique(d) && capacity > 0
    ensures Prefix(capacity, [k] + Drop(d, k))
            == [k] + if k in Prefix(capacity, d) then Drop(Prefix(capacity, d), k)
                     else if |Prefix(capacity, d)| >= capacity then d[..capacity - 1] else d
  {
    hide Unique, Drop;
    var w := Prefix(capacity, d);
    if k in d {
      var p :| 0 <= p < |d| && d[p] == k;
      DropAt(d, p);
      UniquePrefix(d, |w|);
      UniqueAt(d, |w|, p);
      if p < |w| {
        DropAt(w, p);
        WindowInside(d, capacity, p, k);
      } else {
        WindowOutside(d, capacity, p, k);
      }
    } else {
      DropAbsent(d, k);
    }
  }

  lemma WindowInside<K>(d: seq<K>, capacity: nat, p: nat, k: K)
    requires p < |Prefix(capacity, d)|
    ensures Prefix(capacity, [k] + (d[..p] + d[p + 1..])) == [k] + (Prefix(capacity, d)[..p] + Prefix(capacity, d)[p + 1..])
  {
    if |d| > capacity {
      var gap := d[..p] + d[p + 1..];
      assert ([k] + gap)[..capacity] == [k] + gap[..capacity - 1];
      assert gap[..capacity - 1] == d[..p] + d[p + 1..capacity];
      assert d[..capacity][p + 1..] == d[p + 1..capacity];
      assert d[..capacity][..p] == d[..p];
    }
  }

  lemma WindowOutside<K>(d: seq<K>, capacity: nat, p: nat, k: K)
    requires 0 < capacity <= p < |d|
    ensures Prefix(capacity, [k] + (d[..p] + d[p + 1..])) == [k] + d[..capacity - 1]
  {
    var gap := d[..p] + d[p + 1..];
    assert ([k] + gap)[..capacity] == [k] + gap[..capacity - 1];
    assert gap[..capacity - 1] == d[..capacity - 1];
  }

  lemma UniquePrefix<T>(s: seq<T>, n: nat)
    requires Unique(s) && n <= |s|
    ensures Unique(s[..n])
  {
  }

  /** The element at p lies in a prefix only if p does. */
  lemma UniqueAt<T>(s: seq<T>, n: nat, p: nat)
    requires Unique(s) && n <= |s| && p < |s|
    ensures s[p] in s[..n] <==> p < n
  {
    if s[p] in s[..n] {
      var q :| 0 <= q < n && s[q] == s[p];
    }
  }

  lemma {:induction false} WithoutValues<K, V>(items: seq<Pair<K, V>>, k: K, x: K)
    requires x != k
    ensures Find(Without(items, k), x) == Find(items, x)
  {
    if items != [] {
      WithoutValues(items[1..], k, x);
      var rest := Without(items[1..], k);
      if items[0].key == k {
        assert Without(items, k) == rest;
      } else {
        assert Without(items, k) == [items[0]] + rest;
        KeysCons(items[0], rest);
      }
    }
  }

  lemma {:induction false} FindAt<K, V>(items: seq<Pair<K, V>>, p: nat)
    requires Unique(Keys(items)) && p < |items|
    ensures Find(items, items[p].key) == Some(items[p].value)
  {
    KeysAt(items);
    if p > 0 {
      KeysAt(items[1..]);
      assert Keys(items)[0] != Keys(items)[p];
      FindAt(items[1..], p - 1);
    }
  }

  lemma KeysPrefix<K, V>(items: seq<Pair<K, V>>, n: nat)
    requires n <= |items|
    ensures |Keys(items)| == |items|
    ensures Keys(items[..n]) == Keys(items)[..n]
  {
    KeysAt(items);
    KeysAt(items[..n]);
  }

  lemma FindPrefix<K, V>(items: seq<Pair<K, V>>, n: nat, x: K)
    requires Unique(Keys(items)) && n <= |items| && x in Keys(items[..n])
    ensures Find(items[..n], x) == Find(items, x)
  {
    KeysPrefix(items, n);
    KeysAt(items);
    UniquePrefix(Keys(items), n);
    hide Unique, Find, Keys;
    var p :| 0 <= p < n && Keys(items)[p] == x;
    FindAt(items, p);
    FindAt(items[..n], p);
  }

  lemma KeysCons<K, V>(p: Pair<K, V>, items: seq<Pair<K, V>>)
    ensures Keys([p] + items) == [p.key] + Keys(items)
    ensures forall x :: Find([p] + items, x) == if x == p.key then Some(p.value) else Find(items, x)
  {
    assert ([p] + items)[1..] == items;
  }

  /** What the list says of a run of puts and gets: its keys are the first `capacity` distinct keys
      of the reversed use history, in that order, each with the value of its latest put. */
  ghost predicate Exact<K(!new), V(!new)>(items: seq<Pair<K, V>>, capacity: nat, ops: seq<Op<K, V>>) {
    && Keys(items) == Prefix(capacity, Distinct(Uses(capacity, ops)))
    && forall x :: x in Keys(items) ==> Find(items, x) == LastPut(ops, x)
  }

  lemma HitStep<K(!new), V(!new)>(items: seq<Pair<K, V>>, capacity: nat, ops: seq<Op<K, V>>, op: Op<K, V>)
    requires capacity > 0 && Exact(items, capacity, ops) && op.key in Keys(items)
    ensures Exact(Apply(items, capacity, op), capacity, ops + [op])
  {
    hide Distinct, Uses, Unique, Keys, Find, Without, Drop, LastPut;
    var k, after, all := op.key, Apply(items, capacity, op), ops + [op];
    WindowStep(items, capacity, ops, op);
    FindSpec(items, k);
    var v := if op.PutOp? then op.value else Find(items, k).value;
    assert after == [Pair(k, v)] + Without(items, k);
    hide Apply;
    WithoutKeys(items, k);
    KeysCons(Pair(k, v), Without(items, k));
    DropSpec(Keys(items), k);
    forall x | x in Keys(after)
      ensures Find(after, x) == LastPut(all, x)
    {
      LastPutStep(ops, op, x);
      if x != k {
        WithoutValues(items, k, x);
      }
    }
  }

  lemma MissStep<K(!new), V(!new)>(items: seq<Pair<K, V>>, capacity: nat, ops: seq<Op<K, V>>, op: Op<K, V>)
    requires capacity > 0 && Exact(items, capacity, ops) && op.PutOp? && op.key !in Keys(items)
    ensures Exact(Apply(items, capacity, op), capacity, ops + [op])
  {
    var k, after, all := op.key, Apply(items, capacity, op), ops + [op];
    WindowStep(items, capacity, ops, op);
    FindSpec(items, k);
    var kept := Evicted(items, capacity);
    assert after == [Pair(k, op.value)] + kept;
    KeysCons(Pair(k, op.value), kept);
    KeysPrefix(items, |kept|);
    hide Distinct, Uses, Apply, Unique, Keys;
    assert kept == items[..|kept|];
    forall x | x in Keys(after)
      ensures Find(after, x) == LastPut(all, x)
    {
      LastPutStep(ops, op, x);
      if x != k {
        FindPrefix(items, |kept|, x);
      }
    }
  }

  /** What one use of a key does to the window of most recent distinct keys. */
  lemma WindowStep<K(!new), V(!new)>(items: seq<Pair<K, V>>, capacity: nat, ops: seq<Op<K, V>>, op: Op<K, V>)
    requires capacity > 0 && Exact(items, capacity, ops)
    requires op.PutOp? || op.key in Keys(items)
    ensures Unique(Keys(items))
    ensures Prefix(capacity, Distinct(Uses(capacity, ops + [op])))
            == [op.key] + if op.key in Keys(items) then Drop(Keys(items), op.key)
                          else if |Keys(items)| >= capacity then Keys(items)[..|Keys(items)| - 1] else Keys(items)
  {
    var k, all := op.key, ops + [op];
    assert all[..|all| - 1] == ops;
    var h := Uses(capacity, ops);
    assert Uses(capacity, all) == [k] + h;
    assert ([k] + h)[1..] == h;
    DistinctSpec(h);
    assert Distinct([k] + h) == [k] + Drop(Distinct(h), k);
    UniquePrefix(Distinct(h), |Prefix(capacity, Distinct(h))|);
    UseStep(Distinct(h), capacity, k);
  }

  lemma LastPutStep<K, V>(ops: seq<Op<K, V>>, op: Op<K, V>, x: K)
    ensures LastPut(ops + [op], x) == if op.PutOp? && op.key == x then Some(op.value) else LastPut(ops, x)
  {
    assert (ops + [op])[..|ops|] == ops;
  }

  /** The LRU theorem, for every run of puts and gets. */
  lemma {:induction false} LruIsRecent<K(!new), V(!new)>(capacity: nat, ops: seq<Op<K, V>>)
    requires capacity > 0
    ensures Exact(Run(capacity, ops), capacity, ops)
  {
    if ops != [] {
      var before, op := ops[..|ops| - 1], ops[|ops| - 1];
      LruIsRecent(capacity, before);
      assert before + [op] == ops;
      var items := Run(capacity, before);
      FindSpec(items, op.key);
      if op.key in Keys(items) {
        HitStep(items, capacity, before, op);
      } else if op.PutOp? {
        MissStep(items, capacity, before, op);
      } else {
        assert Run(capacity, ops) == items;
        assert Uses(capacity, ops) == Uses(capacity, before);
        assert forall x :: LastPut(ops, x) == LastPut(before, x);
      }
    }
  }

  /** A key is kept exactly when fewer than `capacity` other keys were used since its last use. */
  lemma KeptIff<K(!new)>(h: seq<K>, capacity: nat, k: K)
    ensures k in Prefix(capacity, Distinct(h))
            <==> exists p :: 0 <= p < |h| && h[p] == k && k !in h[..p] && |SetOf(h[..p])| < capacity
  {
    DistinctSpec(h);
    var d := Distinct(h);
    hide Distinct;
    if k in Prefix(capacity, d) {
      var i :| 0 <= i < |Prefix(capacity, d)| && d[i] == k;
      var p := FirstUse(h, k);
      DistinctPosition(h, p, i);
    }
    if exists p :: 0 <= p < |h| && h[p] == k && k !in h[..p] && |SetOf(h[..p])| < capacity {
      var p :| 0 <= p < |h| && h[p] == k && k !in h[..p] && |SetOf(h[..p])| < capacity;
      assert k in d;
      var i :| 0 <= i < |d| && d[i] == k;
      DistinctPosition(h, p, i);
      assert Prefix(capacity, d)[i] == k;
    }
  }

  lemma {:induction false} FirstUse<K>(h: seq<K>, k: K) returns (p: nat)
    requires k in h
    ensures p < |h| && h[p] == k && k !in h[..p]
  {
    if h[0] == k {
      p := 0;
    } else {
      var q := FirstUse(h[1..], k);
      p := q + 1;
      assert h[..p] == [h[0]] + h[1..][..q];
    }
  }

  /** A key first used at p stands in the distinct list after exactly the keys used before p. */
  lemma DistinctPosition<K>(h: seq<K>, p: nat, i: nat)
    requires p < |h| && h[p] !in h[..p] && i < |Distinct(h)| && Distinct(h)[i] == h[p]
    ensures |SetOf(h[..p])| == i
  {
    DistinctSpec(h);
    DistinctBefore(h, p, i);
    UniquePrefix(Distinct(h), i);
    UniqueSize(Distinct(h)[..i]);
  }

  lemma {:induction false} DistinctBefore<K>(h: seq<K>, p: nat, i: nat)
    requires p < |h| && h[p] !in h[..p] && i < |Distinct(h)| && Distinct(h)[i] == h[p]
    ensures SetOf(Distinct(h)[..i]) == SetOf(h[..p])
  {
    hide Unique, SetOf;
    var d := Distinct(h);
    if p == 0 {
      DistinctIndex(h, 0, i);
    } else {
      var t, e := h[1..], Distinct(h[1..]);
      hide Drop;
      assert h[..p] == [h[0]] + t[..p - 1];
      var j := DistinctHas(t, p - 1);
      DistinctBefore(t, p - 1, j);
      DropSplit(e, j, h[0]);
      var front := [h[0]] + Drop(e[..j], h[0]);
      assert d == front + Drop(e[j..], h[0]);
      DistinctIndex(h, |front|, i);
      assert d[..i] == front;
      SetOfDrop(e[..j], h[0]);
      SetOfCons(h[0], Drop(e[..j], h[0]));
      SetOfCons(h[0], t[..p - 1]);
    }
  }

  lemma DistinctHas<K>(h: seq<K>, p: nat) returns (j: nat)
    requires p < |h|
    ensures j < |Distinct(h)| && Distinct(h)[j] == h[p]
  {
    DistinctSpec(h);
    assert h[p] in Distinct(h);
    j :| 0 <= j < |Distinct(h)| && Distinct(h)[j] == h[p];
  }

  lemma DistinctIndex<K>(h: seq<K>, i: nat, j: nat)
    requires i < |Distinct(h)| && j < |Distinct(h)| && Distinct(h)[i] == Distinct(h)[j]
    ensures i == j
  {
    DistinctSpec(h);
  }

  lemma SetOfCons<K>(x: K, s: seq<K>)
    ensures SetOf([x] + s) == {x} + SetOf(s)
  {
  }

  lemma SetOfDrop<K>(s: seq<K>, k: K)
    ensures SetOf(Drop(s, k)) == SetOf(s) - {k}
  {
    DropSpec(s, k);
    forall x | x in SetOf(s) - {k}
      ensures x in SetOf(Drop(s, k))
    {
      assert x in s;
    }
    assert SetOf(Drop(s, k)) <= SetOf(s) - {k};
  }

  lemma DropSplit<K>(e: seq<K>, j: nat, k: K)
    requires j < |e| && e[j] != k
    ensures Drop(e, k) == Drop(e[..j], k) + Drop(e[j..], k)
    ensures Drop(e[j..], k) != [] && Drop(e[j..], k)[0] == e[j]
  {
    assert e == e[..j] + e[j..];
    DropConcat(e[..j], e[j..], k);
  }

  lemma {:induction false} UniqueSize<K>(s: seq<K>)
    requires Unique(s)
    ensures |SetOf(s)| == |s|
  {
    if s != [] {
      var n := |s| - 1;
      UniqueSize(s[..n]);
      assert SetOf(s) == SetOf(s[..n]) + {s[n]};
    }
  }
}
