/** One iterative Kademlia get_peers lookup (src/dht/kademlia_lookup.cpp). */
module Lookup {
  import opened Common
  import opened NodeIds
  import opened Nearest

  const LOOKUP_ALPHA: nat := 6

  type Txn = string

  type Sort = (NodeId, seq<Entry>) -> seq<Entry>

  /** `learned` is the history of every node seeded or merged, `asked` of every address queried;
      no operation reads them. */
  datatype Lookup = Lookup(target: NodeId, candidates: seq<Entry>, queried: set<PeerAddress>, pending: set<Txn>,
                           started: int, learned: multiset<Entry>, asked: seq<PeerAddress>)

  function NewLookup(target: NodeId, seeds: seq<Entry>, now: int): (lk: Lookup) {
    Lookup(target, seeds, {}, {}, now, multiset(seeds), [])
  }

  predicate AllQueried(lk: Lookup) {
    forall i :: 0 <= i < |lk.candidates| ==> lk.candidates[i].addr in lk.queried
  }

  /** The nodes of a list other than ourselves. */
  function Others(nodes: seq<Entry>, self: NodeId): (r: seq<Entry>) {
    if nodes == [] then []
    else Others(nodes[..|nodes| - 1], self)
         + (if nodes[|nodes| - 1].id == self then [] else [nodes[|nodes| - 1]])
  }

  lemma OthersStep(nodes: seq<Entry>, self: NodeId, i: nat)
    requires i < |nodes|
    ensures Others(nodes[..i + 1], self) == Others(nodes[..i], self) + (if nodes[i].id == self then [] else [nodes[i]])
  {
    assert nodes[..i + 1][..i] == nodes[..i];
  }

  /** Exactly the entries about ourselves are left out. */
  lemma {:induction false} OthersSpec(nodes: seq<Entry>, self: NodeId, e: Entry)
    ensures multiset(Others(nodes, self))[e] == if e.id == self then 0 else multiset(nodes)[e]
  {
    if nodes != [] {
      var n := |nodes| - 1;
      var before, last := nodes[..n], nodes[n];
      OthersSpec(before, self, e);
      assert Others(nodes, self) == if last.id == self then Others(before, self) else Others(before, self) + [last];
      hide Others;
      SplitEnd(nodes);
      CountSnoc(before, last, e);
      CountSnoc(Others(before, self), last, e);
    }
  }

  /** merge_nodes: append, sort, cut to K. */
  function Merge(sort: Sort, self: NodeId, lk: Lookup, nodes: seq<Entry>): (r: Lookup) {
    var more := Others(nodes, self);
    lk.(candidates := Take(K, sort(lk.target, lk.candidates + more)), learned := lk.learned + multiset(more))
  }

  /** The candidates select_next_candidates takes, in order. */
  function Selection(candidates: seq<Entry>, queried: set<PeerAddress>, count: nat): (r: seq<Entry>) {
    if candidates == [] || count == 0 then []
    else if candidates[0].addr in queried then Selection(candidates[1..], queried, count)
    else [candidates[0]] + Selection(candidates[1..], queried + {candidates[0].addr}, count - 1)
  }

  function Addresses(nodes: seq<Entry>): (r: seq<PeerAddress>) {
    seq(|nodes|, i requires 0 <= i < |nodes| => nodes[i].addr)
  }

  function Select(lk: Lookup, count: nat): (r: (Lookup, seq<Entry>)) {
    var chosen := Selection(lk.candidates, lk.queried, count);
    (lk.(queried := lk.queried + SetOf(Addresses(chosen)), asked := lk.asked + Addresses(chosen)), chosen)
  }

  // ---------------------------------------------------------------------------
  // The loops of the source
  // ---------------------------------------------------------------------------

  method AllCandidatesQueried(lk: Lookup) returns (all: bool)
    ensures all == AllQueried(lk)
  {
    for i := 0 to |lk.candidates|
      invariant forall j :: 0 <= j < i ==> lk.candidates[j].addr in lk.queried
    {
      if lk.candidates[i].addr !in lk.queried { return false; }
    }
    return true;
  }

  method MergeNodes(sort: Sort, self: NodeId, lk: Lookup, nodes: seq<Entry>) returns (r: Lookup)
    ensures r == Merge(sort, self, lk, nodes)
  {
    var candidates := lk.candidates;
    assert Others(nodes[..0], self) == [];
    hide Others;
    for i := 0 to |nodes|
      invariant candidates == lk.candidates + Others(nodes[..i], self)
    {
      OthersStep(nodes, self, i);
      if nodes[i].id != self {
        candidates := candidates + [nodes[i]];
      }
    }
    assert nodes[..|nodes|] == nodes;
    candidates := sort(lk.target, candidates);
    if |candidates| > K {
      candidates := candidates[..K];
    }
    r := lk.(candidates := candidates, learned := lk.learned + multiset(Others(nodes, self)));
  }

  method SelectNextCandidates(lk: Lookup, count: nat) returns (r: Lookup, selected: seq<Entry>)
    ensures (r, selected) == Select(lk, count)
  {
    hide Selection;
    selected := [];
    var queried, i := lk.queried, 0;
    ghost var chosen := Selection(lk.candidates, lk.queried, count);
    assert lk.candidates[0..] == lk.candidates;
    while i < |lk.candidates| && |selected| < count
      invariant 0 <= i <= |lk.candidates| && |selected| <= count
      invariant selected + Selection(lk.candidates[i..], queried, count - |selected|) == chosen
      invariant queried == lk.queried + SetOf(Addresses(selected))
    {
      var node := lk.candidates[i];
      SelectionTurn(lk.candidates, i, queried, count - |selected|);
      if node.addr !in queried {
        AddressesStep(selected, node);
        ConcatAssoc(selected, [node], Selection(lk.candidates[i + 1..], queried + {node.addr}, count - |selected| - 1));
        queried := queried + {node.addr};
        selected := selected + [node];
      }
      i := i + 1;
    }
    SelectionEnds(lk.candidates[i..], queried, count - |selected|);
    assert selected + [] == selected;
    r := lk.(queried := queried, asked := lk.asked + Addresses(selected));
  }

  lemma SelectionTurn(candidates: seq<Entry>, i: nat, queried: set<PeerAddress>, count: nat)
    requires i < |candidates| && count > 0
    ensures Selection(candidates[i..], queried, count)
            == if candidates[i].addr in queried then Selection(candidates[i + 1..], queried, count)
               else [candidates[i]] + Selection(candidates[i + 1..], queried + {candidates[i].addr}, count - 1)
  {
    assert candidates[i..][1..] == candidates[i + 1..];
  }

  lemma SelectionEnds(candidates: seq<Entry>, queried: set<PeerAddress>, count: nat)
    requires candidates == [] || count == 0
    ensures Selection(candidates, queried, count) == []
  {
  }

  lemma AddressesStep(nodes: seq<Entry>, e: Entry)
    ensures Addresses(nodes + [e]) == Addresses(nodes) + [e.addr]
    ensures SetOf(Addresses(nodes + [e])) == SetOf(Addresses(nodes)) + {e.addr}
  {
    assert Addresses(nodes + [e]) == Addresses(nodes) + [e.addr];
  }

  // ---------------------------------------------------------------------------
  // What every operation keeps
  // ---------------------------------------------------------------------------

  predicate NoDuplicates(addrs: seq<PeerAddress>) {
    forall i, j :: 0 <= i < j < |addrs| ==> addrs[i] != addrs[j]
  }

  /** The candidates are, with multiplicity, the 8 nearest of everything ever learned; no address
      was asked twice; at most alpha transactions are open. */
  ghost predicate LookupOk(lk: Lookup) {
    && NearestOf(lk.target, K, lk.learned, lk.candidates)
    && 0 < |lk.learned|
    && NoDuplicates(lk.asked) && SetOf(lk.asked) == lk.queried
    && |lk.pending| <= LOOKUP_ALPHA
  }

  /** routing_table_.closest returns at most eight nodes, nearest first. */
  predicate Seeds(target: NodeId, seeds: seq<Entry>) {
    seeds != [] && |seeds| <= K && Ordered(target, seeds)
  }

  lemma NewLookupOk(target: NodeId, seeds: seq<Entry>, now: int)
    requires Seeds(target, seeds)
    ensures LookupOk(NewLookup(target, seeds, now))
  {
    hide Away;
    SortedPrefix(target, K, seeds);
  }

  lemma MergeOk(sort: Sort, self: NodeId, lk: Lookup, nodes: seq<Entry>)
    requires SortsByDistance(sort) && LookupOk(lk)
    ensures LookupOk(Merge(sort, self, lk, nodes))
    ensures Merge(sort, self, lk, nodes).pending == lk.pending
    ensures Merge(sort, self, lk, nodes).target == lk.target
  {
    hide Away, Ordered, NearestOf, NoDuplicates, SetOf;
    var more := Others(nodes, self);
    var sorted := sort(lk.target, lk.candidates + more);
    assert multiset(sorted) == multiset(lk.candidates) + multiset(more);
    MergeNearest(lk.target, K, lk.learned, lk.candidates, multiset(more), sorted);
    assert |lk.learned + multiset(more)| == |lk.learned| + |multiset(more)|;
  }

  lemma {:induction false} SelectionSpec(candidates: seq<Entry>, queried: set<PeerAddress>, count: nat)
    ensures var r := Selection(candidates, queried, count);
            && |r| <= count
            && NoDuplicates(Addresses(r))
            && (forall i :: 0 <= i < |r| ==> r[i].addr !in queried)
            && (count > 0 && (exists i :: 0 <= i < |candidates| && candidates[i].addr !in queried) ==> r != [])
  {
    if candidates == [] || count == 0 {
    } else if candidates[0].addr in queried {
      SelectionSpec(candidates[1..], queried, count);
    } else {
      SelectionSpec(candidates[1..], queried + {candidates[0].addr}, count - 1);
      var tail := Selection(candidates[1..], queried + {candidates[0].addr}, count - 1);
      assert Addresses([candidates[0]] + tail) == [candidates[0].addr] + Addresses(tail);
    }
  }

  /** The selection is greedy, nearest candidate first: up to some position everybody is asked or was
      asked before, nobody is selected beyond it, and it stops early only when `count` are selected. */
  lemma {:induction false} NearestFirst(candidates: seq<Entry>, queried: set<PeerAddress>, count: nat) returns (cut: nat)
    ensures cut <= |candidates|
    ensures var r := Selection(candidates, queried, count);
            && (forall i :: 0 <= i < cut ==> candidates[i].addr in queried + SetOf(Addresses(r)))
            && (forall j :: 0 <= j < |r| ==> r[j] in candidates[..cut])
            && (|r| == count || cut == |candidates|)
  {
    var r := Selection(candidates, queried, count);
    if candidates == [] || count == 0 {
      cut := 0;
    } else {
      var first, tail := candidates[0], candidates[1..];
      var asked, left := queried, count;
      if first.addr !in queried {
        asked, left := queried + {first.addr}, count - 1;
      }
      var n := NearestFirst(tail, asked, left);
      cut := n + 1;
      var rest := Selection(tail, asked, left);
      assert candidates[..cut] == [first] + tail[..n];
      if first.addr !in queried {
        assert r == [first] + rest;
        FirstAddress(first, rest);
      }
      hide Selection;
      forall i | 0 <= i < cut
        ensures candidates[i].addr in queried + SetOf(Addresses(r))
      {
        if i > 0 {
          assert candidates[i] == tail[i - 1];
        }
      }
    }
  }

  lemma FirstAddress(e: Entry, rest: seq<Entry>)
    ensures SetOf(Addresses([e] + rest)) == {e.addr} + SetOf(Addresses(rest))
  {
    assert Addresses([e] + rest) == [e.addr] + Addresses(rest);
  }

  /** Selecting asks each address at most once over the life of the lookup, and asks somebody
      whenever there is room and an unasked candidate. */
  lemma SelectOk(lk: Lookup, count: nat)
    requires LookupOk(lk)
    ensures LookupOk(Select(lk, count).0) && |Select(lk, count).1| <= count
    ensures count > 0 && !AllQueried(lk) ==> Select(lk, count).1 != []
    ensures Select(lk, count).0.pending == lk.pending && Select(lk, count).0.target == lk.target
  {
    hide NearestOf, Selection;
    SelectionSpec(lk.candidates, lk.queried, count);
    var chosen := Selection(lk.candidates, lk.queried, count);
    forall i | 0 <= i < |lk.asked|
      ensures lk.asked[i] in lk.queried
    {
      assert lk.asked[i] in SetOf(lk.asked);
    }
    assert SetOf(lk.asked + Addresses(chosen)) == SetOf(lk.asked) + SetOf(Addresses(chosen));
  }

  /** A finished lookup has nothing in flight, has asked all its candidates, and among them a node
      at the minimum XOR distance ever learned. */
  ghost predicate Finished(lk: Lookup) {
    && lk.pending == {}
    && AllQueried(lk)
    && NearestOf(lk.target, K, lk.learned, lk.candidates)
    && NoDuplicates(lk.asked) && SetOf(lk.asked) == lk.queried
    && exists e :: e in lk.learned && e.addr in lk.queried
         && forall y :: y in lk.learned ==> Away(lk.target, e) <= Away(lk.target, y)
  }

  lemma FinishedLookup(lk: Lookup)
    requires LookupOk(lk) && lk.pending == {} && AllQueried(lk)
    ensures Finished(lk)
  {
    hide Away;
    var e := lk.candidates[0];
    assert e in multiset(lk.candidates);
    forall y | y in lk.learned
      ensures Away(lk.target, e) <= Away(lk.target, y)
    {
      if y in multiset(lk.candidates) {
        var j :| 0 <= j < |lk.candidates| && lk.candidates[j] == y;
      } else {
        assert y in lk.learned - multiset(lk.candidates);
      }
    }
  }
}
