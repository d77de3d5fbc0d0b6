/** The cache as the mutable object of the source (inc/lru_cache.h): a list of nodes and an index
    that points into it, proved to implement the list of pairs of module Lru. */
module LruList {
  import opened Common
  import opened Lru

  /** The list order of the nodes, their contents, and the index from keys to nodes. A node keeps its
      number when it is relinked, as a std::list iterator stays valid across a splice. */
  ghost predicate LinkedUp<K(!new), V>(items: seq<nat>, nodes: map<nat, Pair<K, V>>, index: map<K, nat>) {
    && Unique(items)
    && (forall n :: n in nodes <==> n in items)
    && (forall n :: n in nodes ==> nodes[n].key in index && index[nodes[n].key] == n)
    && (forall k :: k in index ==> index[k] in nodes && nodes[index[k]].key == k)
  }

  /** The pairs in list order. */
  ghost function View<K, V>(items: seq<nat>, nodes: map<nat, Pair<K, V>>): (r: seq<Pair<K, V>>)
    requires forall n :: n in items ==> n in nodes
  {
    if items == [] then []
    else
      assert items[0] in items;
      assert forall n :: n in items[1..] ==> n in items;
      [nodes[items[0]]] + View(items[1..], nodes)
  }

  /** Taking a node out of the list. */
  function Unlink(items: seq<nat>, n: nat): (r: seq<nat>) {
    if items == [] then []
    else if items[0] == n then items[1..]
    else [items[0]] + Unlink(items[1..], n)
  }

  lemma {:induction false} ViewAt<K, V>(items: seq<nat>, nodes: map<nat, Pair<K, V>>)
    requires forall n :: n in items ==> n in nodes
    ensures |View(items, nodes)| == |items|
    ensures forall i :: 0 <= i < |items| ==> items[i] in nodes && View(items, nodes)[i] == nodes[items[i]]
  {
    if items != [] {
      ViewAt(items[1..], nodes);
    }
  }

  lemma {:induction false} UnlinkAt(items: seq<nat>, p: nat)
    requires Unique(items) && p < |items|
    ensures Unlink(items, items[p]) == items[..p] + items[p + 1..]
  {
    hide Unique;
    UniqueTail(items);
    if p > 0 {
      var tail := items[1..];
      assert tail[p - 1] in tail;
      assert Unlink(items, items[p]) == [items[0]] + Unlink(tail, tail[p - 1]);
      hide Unlink;
      UnlinkAt(tail, p - 1);
      assert items[..p] == [items[0]] + tail[..p - 1];
      assert items[p + 1..] == tail[p..];
    }
  }

  lemma UnlinkMembers(items: seq<nat>, n: nat)
    requires Unique(items) && n in items
    ensures Unique(Unlink(items, n))
    ensures forall x :: x in Unlink(items, n) <==> x in items && x != n
    ensures |Unlink(items, n)| == |items| - 1
  {
    var p :| 0 <= p < |items| && items[p] == n;
    UnlinkAt(items, p);
    DropAt(items, p);
    DropSpec(items, n);
  }

  /** List and index hold the same keys, once each. */
  lemma LinkedKeys<K(!new), V>(items: seq<nat>, nodes: map<nat, Pair<K, V>>, index: map<K, nat>)
    requires LinkedUp(items, nodes, index)
    ensures Unique(Keys(View(items, nodes)))
    ensures forall k :: k in Keys(View(items, nodes)) <==> k in index
    ensures |index| == |items|
  {
    hide View, Keys, Unique;
    var keys := Keys(View(items, nodes));
    LinkedAt(items, nodes, index);
    LinkedUnique(items, nodes, index);
    LinkedSame(items, nodes, index);
    UniqueSize(keys);
    assert index.Keys == SetOf(keys);
  }

  lemma LinkedAt<K(!new), V>(items: seq<nat>, nodes: map<nat, Pair<K, V>>, index: map<K, nat>)
    requires LinkedUp(items, nodes, index)
    ensures |Keys(View(items, nodes))| == |items|
    ensures forall i :: 0 <= i < |items| ==> items[i] in nodes && Keys(View(items, nodes))[i] == nodes[items[i]].key
  {
    ViewAt(items, nodes);
    KeysAt(View(items, nodes));
  }

  lemma LinkedUnique<K(!new), V>(items: seq<nat>, nodes: map<nat, Pair<K, V>>, index: map<K, nat>)
    requires LinkedUp(items, nodes, index)
    ensures Unique(Keys(View(items, nodes)))
  {
    hide View, Keys;
    LinkedAt(items, nodes, index);
  }

  lemma LinkedSame<K(!new), V>(items: seq<nat>, nodes: map<nat, Pair<K, V>>, index: map<K, nat>)
    requires LinkedUp(items, nodes, index)
    ensures forall k :: k in Keys(View(items, nodes)) <==> k in index
  {
    hide View, Keys, Unique;
    LinkedAt(items, nodes, index);
    var keys := Keys(View(items, nodes));
    forall k | k in index
      ensures k in keys
    {
      var i :| 0 <= i < |items| && items[i] == index[k];
      assert keys[i] == k;
    }
    forall k | k in keys
      ensures k in index
    {
      var i :| 0 <= i < |keys| && keys[i] == k;
      assert items[i] in nodes;
    }
  }

  lemma LinkedFind<K(!new), V>(items: seq<nat>, nodes: map<nat, Pair<K, V>>, index: map<K, nat>, k: K)
    requires LinkedUp(items, nodes, index)
    ensures k in index ==> index[k] in nodes && nodes[index[k]].key == k
    ensures Find(View(items, nodes), k) == if k in index then Some(nodes[index[k]].value) else None
  {
    LinkedKeys(items, nodes, index);
    FindSpec(View(items, nodes), k);
    if k in index {
      ViewAt(items, nodes);
      var p :| 0 <= p < |items| && items[p] == index[k];
      FindAt(View(items, nodes), p);
    }
  }

  lemma {:induction false} ViewWithout<K, V>(items: seq<nat>, nodes: map<nat, Pair<K, V>>, n: nat)
    requires Unique(items) && n in nodes
    requires forall x :: x in items ==> x in nodes
    requires forall x :: x in items && nodes[x].key == nodes[n].key ==> x == n
    ensures forall x :: x in Unlink(items, n) ==> x in nodes
    ensures View(Unlink(items, n), nodes) == Without(View(items, nodes), nodes[n].key)
  {
    if items != [] {
      UniqueTail(items);
      hide Unique;
      var tail, k := items[1..], nodes[n].key;
      assert forall x :: x in tail ==> x in items;
      assert items[0] in items;
      var pairs := View(items, nodes);
      assert pairs == [nodes[items[0]]] + View(tail, nodes);
      assert pairs[1..] == View(tail, nodes);
      if items[0] == n {
        WithoutAbsent(tail, nodes, k);
      } else {
        ViewWithout(tail, nodes, n);
        var rest := Unlink(tail, n);
        assert ([items[0]] + rest)[1..] == rest;
      }
    }
  }

  lemma {:induction false} WithoutAbsent<K, V>(items: seq<nat>, nodes: map<nat, Pair<K, V>>, k: K)
    requires forall x :: x in items ==> x in nodes && nodes[x].key != k
    ensures Without(View(items, nodes), k) == View(items, nodes)
  {
    if items != [] {
      var tail := items[1..];
      assert items[0] in items;
      WithoutAbsent(tail, nodes, k);
      var pairs := View(items, nodes);
      assert pairs[1..] == View(tail, nodes);
    }
  }

  lemma {:induction false} ViewSame<K, V>(items: seq<nat>, nodes: map<nat, Pair<K, V>>, others: map<nat, Pair<K, V>>)
    requires forall n :: n in items ==> n in nodes && n in others && nodes[n] == others[n]
    ensures View(items, nodes) == View(items, others)
  {
    if items != [] {
      ViewSame(items[1..], nodes, others);
      assert items[0] in items;
    }
  }

  lemma OverwriteView<K(!new), V>(items: seq<nat>, nodes: map<nat, Pair<K, V>>, index: map<K, nat>, n: nat, v: V)
    requires LinkedUp(items, nodes, index) && n in nodes
    ensures var after := nodes[n := Pair(nodes[n].key, v)];
            && LinkedUp(items, after, index)
            && Without(View(items, after), nodes[n].key) == Without(View(items, nodes), nodes[n].key)
  {
    hide Unique, Unlink, Without, View;
    var after := nodes[n := Pair(nodes[n].key, v)];
    ViewWithout(items, nodes, n);
    ViewWithout(items, after, n);
    UnlinkMembers(items, n);
    ViewSame(Unlink(items, n), nodes, after);
  }

  /** Moving a node to the front. */
  lemma RelinkView<K(!new), V>(items: seq<nat>, nodes: map<nat, Pair<K, V>>, index: map<K, nat>, n: nat)
    requires LinkedUp(items, nodes, index) && n in nodes
    ensures LinkedUp([n] + Unlink(items, n), nodes, index)
    ensures View([n] + Unlink(items, n), nodes) == [nodes[n]] + Without(View(items, nodes), nodes[n].key)
    ensures |[n] + Unlink(items, n)| == |items|
  {
    hide Unique, Unlink, Without;
    ViewWithout(items, nodes, n);
    UnlinkMembers(items, n);
    var rest := Unlink(items, n);
    UniqueCons(n, rest);
    assert ([n] + rest)[1..] == rest;
  }

  /** Putting a new node at the front. */
  lemma EmplaceView<K(!new), V>(items: seq<nat>, nodes: map<nat, Pair<K, V>>, index: map<K, nat>, n: nat, pair: Pair<K, V>)
    requires LinkedUp(items, nodes, index) && n !in nodes && pair.key !in index
    ensures LinkedUp([n] + items, nodes[n := pair], index[pair.key := n])
    ensures View([n] + items, nodes[n := pair]) == [pair] + View(items, nodes)
  {
    hide Unique;
    UniqueCons(n, items);
    assert ([n] + items)[1..] == items;
    ViewSame(items, nodes, nodes[n := pair]);
  }

  /** Dropping a node from the list, the nodes and the index together. */
  lemma RemoveView<K(!new), V>(items: seq<nat>, nodes: map<nat, Pair<K, V>>, index: map<K, nat>, n: nat)
    requires LinkedUp(items, nodes, index) && n in nodes
    ensures LinkedUp(Unlink(items, n), nodes - {n}, index - {nodes[n].key})
    ensures View(Unlink(items, n), nodes - {n}) == Without(View(items, nodes), nodes[n].key)
    ensures |Unlink(items, n)| == |items| - 1
  {
    hide Unique, Unlink, Without, View;
    ViewWithout(items, nodes, n);
    UnlinkMembers(items, n);
    ViewSame(Unlink(items, n), nodes, nodes - {n});
  }

  lemma KeysTail<K, V>(pairs: seq<Pair<K, V>>)
    requires Unique(Keys(pairs)) && pairs != []
    ensures Unique(Keys(pairs[1..])) && pairs[0].key !in Keys(pairs[1..])
  {
    UniqueTail(Keys(pairs));
    assert Keys(pairs)[1..] == Keys(pairs[1..]);
  }

  lemma KeyIn<K, V>(pairs: seq<Pair<K, V>>, p: nat)
    requires p < |pairs|
    ensures pairs[p].key in Keys(pairs)
  {
    KeysAt(pairs);
    assert Keys(pairs)[p] == pairs[p].key;
  }

  lemma RemoveAtView<K(!new), V>(items: seq<nat>, nodes: map<nat, Pair<K, V>>, index: map<K, nat>, p: nat)
    requires LinkedUp(items, nodes, index) && p < |items|
    ensures items[p] in nodes && |View(items, nodes)| == |items|
    ensures Without(View(items, nodes), nodes[items[p]].key) == View(items, nodes)[..p] + View(items, nodes)[p + 1..]
  {
    hide Unique, Without, View, Keys;
    LinkedKeys(items, nodes, index);
    ViewAt(items, nodes);
    WithoutAt(View(items, nodes), p);
  }

  lemma {:induction false} WithoutAt<K, V>(pairs: seq<Pair<K, V>>, p: nat)
    requires Unique(Keys(pairs)) && p < |pairs|
    ensures Without(pairs, pairs[p].key) == pairs[..p] + pairs[p + 1..]
  {
    hide Unique, Keys;
    var tail := pairs[1..];
    KeysTail(pairs);
    if p == 0 {
      NoneWithout(tail, pairs[0].key);
    } else {
      KeyIn(tail, p - 1);
      WithoutAt(tail, p - 1);
      assert pairs[..p] == [pairs[0]] + tail[..p - 1];
      assert pairs[p + 1..] == tail[p..];
    }
  }

  lemma {:induction false} NoneWithout<K, V>(pairs: seq<Pair<K, V>>, k: K)
    requires k !in Keys(pairs)
    ensures Without(pairs, k) == pairs
  {
    if pairs != [] {
      assert Keys(pairs)[1..] == Keys(pairs[1..]);
      assert Keys(pairs)[0] == pairs[0].key;
      NoneWithout(pairs[1..], k);
    }
  }

  lemma LengthView<K(!new), V>(items: seq<nat>, nodes: map<nat, Pair<K, V>>, index: map<K, nat>)
    requires LinkedUp(items, nodes, index)
    ensures |View(items, nodes)| == |items|
  {
    ViewAt(items, nodes);
  }

  class LruCache<K(==, !new), V(!new)> {
    const capacity: nat
    var items: seq<nat>
    var nodes: map<nat, Pair<K, V>>
    var index: map<K, nat>
    var next: nat

    ghost predicate Valid()
      reads this
    {
      && LinkedUp(items, nodes, index)
      && (forall n :: n in nodes ==> n < next)
      && 0 < capacity && |items| <= capacity
    }

    ghost function Contents(): (r: seq<Pair<K, V>>)
      reads this
      requires Valid()
    {
      View(items, nodes)
    }

    constructor (capacity: nat)
      requires capacity > 0
      ensures Valid() && Contents() == [] && this.capacity == capacity
    {
      this.capacity := capacity;
      items, nodes, index, next := [], map[], map[], 0;
    }

    method Size() returns (n: nat)
      requires Valid()
      ensures n == |Contents()|
    {
      LinkedKeys(items, nodes, index);
      ViewAt(items, nodes);
      n := |index|;
    }

    /** The value an iterator at a list position refers to. */
    method ValueAt(p: nat) returns (value: V)
      requires Valid() && p < |Contents()|
      ensures value == Contents()[p].value
    {
      ViewAt(items, nodes);
      value := nodes[items[p]].value;
    }

    /** Moves a node to the front of the list. */
    method Splice(n: nat)
      requires Valid() && n in nodes
      modifies this`items
      ensures Valid() && Contents() == [nodes[n]] + Without(old(Contents()), nodes[n].key)
    {
      RelinkView(items, nodes, index, n);
      hide LinkedUp, Unlink, Without, View;
      items := [n] + Unlink(items, n);
    }

    method Get(key: K) returns (value: Option<V>)
      requires Valid()
      modifies this`items
      ensures Valid() && Contents() == Lru.Get(old(Contents()), key)
      ensures value == Find(old(Contents()), key)
    {
      hide LinkedUp, Find, Without, View;
      LinkedFind(items, nodes, index, key);
      if key !in index {
        return None;
      }
      var n := index[key];
      Splice(n);
      value := Some(nodes[n].value);
    }

    method Put(key: K, value: V)
      requires Valid()
      modifies this
      ensures Valid() && Contents() == Lru.Put(old(Contents()), capacity, key, value)
    {
      hide LinkedUp, Find, Without, View, Unique, Keys;
      LinkedFind(items, nodes, index, key);
      if key in index {
        var n := index[key];
        Overwrite(n, value);
        Splice(n);
      } else {
        LinkedKeys(items, nodes, index);
        LengthView(items, nodes, index);
        if |index| >= capacity {
          EvictLru();
        }
        EmplaceFront(key, value);
      }
    }

    method EmplaceFront(key: K, value: V)
      requires Valid() && key !in index && |items| < capacity
      modifies this
      ensures Valid() && Contents() == [Pair(key, value)] + old(Contents())
    {
      EmplaceView(items, nodes, index, next, Pair(key, value));
      hide LinkedUp, View;
      items, nodes, index := [next] + items, nodes[next := Pair(key, value)], index[key := next];
      next := next + 1;
    }

    /** Storing through an iterator. */
    method Overwrite(n: nat, value: V)
      requires Valid() && n in nodes
      modifies this`nodes
      ensures Valid() && nodes == old(nodes)[n := Pair(old(nodes[n].key), value)]
      ensures Without(Contents(), nodes[n].key) == Without(old(Contents()), nodes[n].key)
    {
      OverwriteView(items, nodes, index, n, value);
      hide LinkedUp, Without, View;
      nodes := nodes[n := Pair(nodes[n].key, value)];
    }

    /** Storing through the reference that get and put return: it points at the front entry. */
    method StoreAtFront(value: V)
      requires Valid() && Contents() != []
      modifies this`nodes
      ensures Valid() && Contents() == [Pair(old(Contents()[0].key), value)] + old(Contents())[1..]
    {
      ghost var before := nodes;
      ViewAt(items, nodes);
      UniqueTail(items);
      var n := items[0];
      assert n in items;
      OverwriteView(items, nodes, index, n, value);
      hide Unique, Without;
      nodes := nodes[n := Pair(nodes[n].key, value)];
      ViewSame(items[1..], before, nodes);
    }

    method Remove(n: nat)
      requires Valid() && n in nodes
      modifies this
      ensures Valid() && Contents() == Without(old(Contents()), old(nodes[n].key))
      ensures index.Keys <= old(index.Keys) && |items| == |old(items)| - 1
    {
      RemoveView(items, nodes, index, n);
      hide LinkedUp, Without, View;
      index := index - {nodes[n].key};
      nodes := nodes - {n};
      items := Unlink(items, n);
    }

    method EvictLru()
      requires Valid()
      modifies this
      ensures Valid() && Contents() == if old(Contents()) == [] then [] else old(Contents())[..|old(Contents())| - 1]
      ensures index.Keys <= old(index.Keys)
      ensures |items| < capacity
    {
      if items == [] {
        return;
      }
      hide LinkedUp, Without, View;
      RemoveAtView(items, nodes, index, |items| - 1);
      Remove(items[|items| - 1]);
    }

    method Erase(key: K) returns (removed: bool)
      requires Valid()
      modifies this
      ensures Valid() && Contents() == Without(old(Contents()), key)
      ensures removed <==> key in Keys(old(Contents()))
    {
      LinkedKeys(items, nodes, index);
      if key !in index {
        NoneWithout(Contents(), key);
        return false;
      }
      hide Unique, Without, View;
      Remove(index[key]);
      return true;
    }

    /** Erases the entry at a position; the position then names the entry that followed it. */
    method EraseAt(p: nat)
      requires Valid() && p < |Contents()|
      modifies this
      ensures Valid() && Contents() == old(Contents())[..p] + old(Contents())[p + 1..]
    {
      hide LinkedUp, Without, View;
      LengthView(items, nodes, index);
      RemoveAtView(items, nodes, index, p);
      Remove(items[p]);
    }

    method Clear()
      requires Valid()
      modifies this
      ensures Valid() && Contents() == []
    {
      items, nodes, index := [], map[], map[];
    }

    method LruKey() returns (key: Option<K>)
      requires Valid()
      ensures key == if Contents() == [] then None else Some(Contents()[|Contents()| - 1].key)
    {
      ViewAt(items, nodes);
      if items == [] {
        return None;
      }
      return Some(nodes[items[|items| - 1]].key);
    }
  }
}
