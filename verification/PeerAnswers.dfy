/** What live_peers answers, told from the upserts alone (src/dht/dht_peer_store.cpp:39-70). */
module PeerAnswers {
  import opened Common
  import opened NodeIds
  import opened Nearest
  import opened Lru
  import opened PeerStore

  type History = seq<Lru.Op<PeerAddress, int>>

  /** Upsert i of the hash is the last one of its address. */
  ghost predicate LastOf(u: History, i: nat, a: PeerAddress) {
    i < |u| && u[i].key == a && forall j :: i < j < |u| ==> u[j].key != a
  }

  /** The addresses upserted after upsert i. */
  function Since(u: History, i: nat): (s: set<PeerAddress>)
    requires i < |u|
  {
    set j | i < j < |u| :: u[j].key
  }

  ghost predicate AllPuts(u: History) {
    forall i :: 0 <= i < |u| ==> u[i].PutOp?
  }

  lemma {:induction false} UpsertsArePuts(ops: seq<PeerStore.Op>, h: InfoHash)
    ensures AllPuts(Upserts(ops, h))
  {
    if ops != [] {
      UpsertsArePuts(ops[..|ops| - 1], h);
    }
  }

  /** The addresses of the history, latest first. */
  ghost predicate Mirrors(u: History, used: seq<PeerAddress>) {
    |used| == |u| && forall p :: 0 <= p < |u| ==> used[p] == u[|u| - 1 - p].key
  }

  /** Every put is a use: the uses are the upserts, latest first. */
  lemma {:induction false} UsesAreReversed(capacity: nat, u: History)
    requires AllPuts(u)
    ensures Mirrors(u, Uses(capacity, u))
  {
    if u != [] {
      var n := |u| - 1;
      UsesAreReversed(capacity, u[..n]);
      var before := Uses(capacity, u[..n]);
      assert Uses(capacity, u) == [u[n].key] + before;
      hide Uses;
      forall p | 0 <= p < |u|
        ensures ([u[n].key] + before)[p] == u[n - p].key
      {
        if p > 0 {
          assert before[p - 1] == u[..n][n - p].key;
        }
      }
    }
  }

  lemma {:induction false} LastPutIs(u: History, i: nat, a: PeerAddress)
    requires AllPuts(u) && LastOf(u, i, a)
    ensures LastPut(u, a) == Some(u[i].value)
  {
    var n := |u| - 1;
    if i < n {
      assert u[n].key != a;
      assert LastOf(u[..n], i, a);
      LastPutIs(u[..n], i, a);
    }
  }

  /** A place in the reversed history is a place in the history. */
  lemma FirstUseIsLast(u: History, used: seq<PeerAddress>, p: nat)
    requires Mirrors(u, used) && p < |u|
    ensures |used| == |u| && used[p] == u[|u| - 1 - p].key
    ensures used[p] !in used[..p] <==> LastOf(u, |u| - 1 - p, used[p])
    ensures SetOf(used[..p]) == Since(u, |u| - 1 - p)
  {
    var i := |u| - 1 - p;
    forall j | i < j < |u|
      ensures u[j].key == used[..p][|u| - 1 - j]
    {
    }
    forall q | 0 <= q < p
      ensures used[..p][q] == u[|u| - 1 - q].key
    {
    }
    forall x | x in SetOf(used[..p])
      ensures x in Since(u, i)
    {
      var q :| 0 <= q < p && used[..p][q] == x;
      assert u[|u| - 1 - q].key == x;
    }
  }

  /** Upsert i is the last of its address, and fewer than fifty addresses were upserted since. */
  ghost predicate Recent50(u: History, i: nat, a: PeerAddress) {
    i < |u| && LastOf(u, i, a) && |Since(u, i)| < 50
  }

  /** An address is among the fifty most recent exactly so. */
  lemma RecentIff(u: History, a: PeerAddress)
    requires AllPuts(u)
    ensures a in Prefix(50, Distinct(Uses(50, u))) <==> exists i :: Recent50(u, i, a)
  {
    hide Uses, Distinct, Prefix, Recent50;
    if a in Prefix(50, Distinct(Uses(50, u))) {
      var i := KeptIsRecent(u, a);
    }
    if i: nat :| Recent50(u, i, a) {
      RecentIsKept(u, i, a);
    }
  }

  lemma KeptIsRecent(u: History, a: PeerAddress) returns (i: nat)
    requires AllPuts(u) && a in Prefix(50, Distinct(Uses(50, u)))
    ensures Recent50(u, i, a)
  {
    hide Uses, Distinct, Prefix, LastOf, Since, SetOf, Mirrors, AllPuts;
    var used := Uses(50, u);
    UsesAreReversed(50, u);
    MirrorLength(u, used);
    KeptIff(used, 50, a);
    var p: nat :| p < |used| && used[p] == a && a !in used[..p] && |SetOf(used[..p])| < 50;
    FirstUseIsLast(u, used, p);
    i := |u| - 1 - p;
  }

  lemma RecentIsKept(u: History, i: nat, a: PeerAddress)
    requires AllPuts(u) && Recent50(u, i, a)
    ensures a in Prefix(50, Distinct(Uses(50, u)))
  {
    hide Uses, Distinct, Prefix, LastOf, Since, SetOf, Mirrors, AllPuts;
    var used := Uses(50, u);
    UsesAreReversed(50, u);
    LastIsIn(u, i, a);
    FirstUseIsLast(u, used, |u| - 1 - i);
    KeptIff(used, 50, a);
  }

  lemma MirrorLength(u: History, used: seq<PeerAddress>)
    requires Mirrors(u, used)
    ensures |used| == |u|
  {
  }

  lemma LastIsIn(u: History, i: nat, a: PeerAddress)
    requires LastOf(u, i, a)
    ensures i < |u| && u[i].key == a
  {
  }

  // ---------------------------------------------------------------------------
  // The filter
  // ---------------------------------------------------------------------------

  predicate IsLive(peer: Pair<PeerAddress, int>, now: int) {
    now - peer.value < 30 * 60 * 1000
  }

  ghost predicate Rising(ps: seq<nat>, bound: nat) {
    && (forall i :: 0 <= i < |ps| ==> ps[i] < bound)
    && (forall i, j :: 0 <= i < j < |ps| ==> ps[i] < ps[j])
  }

  /** The answer holds the keys of the live peers, all of them and in order: `ps` are their places. */
  ghost predicate LiveAt(r: seq<PeerAddress>, peers: Peers, now: int, ps: seq<nat>) {
    && Rising(ps, |peers|) && |ps| == |r|
    && (forall i :: 0 <= i < |ps| ==> IsLive(peers[ps[i]], now) && r[i] == peers[ps[i]].key)
    && (forall p :: 0 <= p < |peers| && IsLive(peers[p], now) ==> p in ps)
  }

  lemma {:induction false} AlivePlaces(peers: Peers, now: int) returns (ps: seq<nat>)
    ensures LiveAt(Alive(peers, now), peers, now, ps)
  {
    hide Alive, LiveAt;
    if peers == [] {
      ps := [];
      NoneLive(now);
    } else {
      var n := |peers| - 1;
      var before := AlivePlaces(peers[..n], now);
      var last := peers[n];
      SplitEnd(peers);
      AliveConcat(peers[..n], [last], now);
      OneLive(last, now);
      LiveStep(Alive(peers[..n], now), peers[..n], last, now, before);
      ps := if IsLive(last, now) then before + [n] else before;
      assert Alive(peers[..n], now) + [] == Alive(peers[..n], now);
    }
  }

  lemma NoneLive(now: int)
    ensures LiveAt(Alive([], now), [], now, [])
  {
  }

  lemma OneLive(last: Pair<PeerAddress, int>, now: int)
    ensures Alive([last], now) == if IsLive(last, now) then [last.key] else []
  {
  }

  lemma LiveStep(r: seq<PeerAddress>, peers: Peers, last: Pair<PeerAddress, int>, now: int, ps: seq<nat>)
    requires LiveAt(r, peers, now, ps)
    ensures IsLive(last, now) ==> LiveAt(r + [last.key], peers + [last], now, ps + [|peers|])
    ensures !IsLive(last, now) ==> LiveAt(r, peers + [last], now, ps)
  {
    var all := peers + [last];
    assert forall p :: 0 <= p < |peers| ==> all[p] == peers[p];
    if IsLive(last, now) {
      assert (ps + [|peers|])[|ps|] == |peers|;
      assert forall p :: p in ps ==> p in ps + [|peers|];
    }
  }

  // ---------------------------------------------------------------------------
  // The theorem
  // ---------------------------------------------------------------------------

  /** The address was last upserted less than thirty minutes ago, and fewer than fifty others since. */
  ghost predicate Current(u: History, a: PeerAddress, now: int) {
    exists i: nat :: Recent50(u, i, a) && u[i].PutOp? && now - u[i].value < 30 * 60 * 1000
  }

  /** Where address a is in the recent list, and with what time. */
  lemma PlaceOf(items: Peers, u: History, a: PeerAddress, i: nat) returns (q: nat)
    requires AllPuts(u) && Exact(items, 50, u) && Recent50(u, i, a)
    ensures q < |items| && items[q] == Pair(a, u[i].value)
  {
    RecentIff(u, a);
    KeysAreUnique(items, u);
    KeysAt(items);
    LastPutIs(u, i, a);
    hide Uses, Distinct, Prefix, Keys, Unique, LastPut, Find, Recent50;
    assert a in Keys(items);
    q :| 0 <= q < |Keys(items)| && Keys(items)[q] == a;
    FindAt(items, q);
  }

  /** Whether address a is in the filtered recent list. */
  lemma CurrentIff(items: Peers, u: History, a: PeerAddress, now: int)
    requires AllPuts(u) && Exact(items, 50, u)
    ensures a in Alive(items, now) <==> Current(u, a, now)
  {
    var ps := AlivePlaces(items, now);
    hide Alive;
    if a in Alive(items, now) {
      var k :| 0 <= k < |Alive(items, now)| && Alive(items, now)[k] == a;
      ListedIsCurrent(items, u, ps[k], now);
    }
    if Current(u, a, now) {
      var i: nat :| Recent50(u, i, a) && u[i].PutOp? && now - u[i].value < 30 * 60 * 1000;
      hide Exact;
      var q := PlaceOf(items, u, a, i);
      assert IsLive(items[q], now);
      var k :| 0 <= k < |ps| && ps[k] == q;
      assert Alive(items, now)[k] == a;
    }
  }

  lemma ListedIsCurrent(items: Peers, u: History, q: nat, now: int)
    requires AllPuts(u) && Exact(items, 50, u) && q < |items| && IsLive(items[q], now)
    ensures Current(u, items[q].key, now)
  {
    var a := items[q].key;
    RecentIff(u, a);
    KeysAt(items);
    KeysAreUnique(items, u);
    hide Uses, Distinct, Prefix, Keys, LastPut, Find, Recent50;
    assert Keys(items)[q] == a;
    assert a in Keys(items);
    var i: nat :| Recent50(u, i, a);
    var p := PlaceOf(items, u, a, i);
    assert Keys(items)[p] == a;
    assert p == q;
    assert i < |u| by { InHistory(u, i, a); }
  }

  lemma InHistory(u: History, i: nat, a: PeerAddress)
    requires Recent50(u, i, a)
    ensures i < |u|
  {
  }

  lemma KeysAreUnique(items: Peers, u: History)
    requires Exact(items, 50, u)
    ensures Unique(Keys(items))
  {
    hide Keys, Uses, LastPut, Find;
    DistinctSpec(Uses(50, u));
    hide Distinct;
    UniquePrefix(Distinct(Uses(50, u)), |Prefix(50, Distinct(Uses(50, u)))|);
  }

  /** An earlier place in the recent list is a later last upsert. */
  lemma EarlierIsLater(items: Peers, u: History, q: nat, p: nat, i: nat, j: nat)
    requires AllPuts(u) && Exact(items, 50, u) && q < p < |items|
    requires LastOf(u, i, items[q].key) && LastOf(u, j, items[p].key)
    ensures i > j
  {
    var used := Uses(50, u);
    var d := Distinct(used);
    UsesAreReversed(50, u);
    KeysAt(items);
    hide Uses, Distinct, Keys, LastPut, Find;
    assert d[q] == items[q].key && d[p] == items[p].key;
    var a, b := |u| - 1 - i, |u| - 1 - j;
    FirstUseIsLast(u, used, a);
    FirstUseIsLast(u, used, b);
    DistinctPosition(used, a, q);
    DistinctPosition(used, b, p);
    if i <= j {
      FewerBefore(used, b, a);
    }
  }

  lemma FewerBefore(used: seq<PeerAddress>, a: nat, b: nat)
    requires a <= b <= |used|
    ensures |SetOf(used[..a])| <= |SetOf(used[..b])|
  {
    assert used[..b] == used[..a] + used[a..b];
    assert SetOf(used[..a]) <= SetOf(used[..b]);
    SubsetSize(SetOf(used[..a]), SetOf(used[..b]));
  }

  /** live_peers answers an address only if it is current; every address at most once; and in order of
      latest upsert, the latest first. */
  lemma AnswersAreCurrent(ops: seq<PeerStore.Op>, h: InfoHash, now: int)
    requires Clock(ops, now)
    ensures var r, u := LivePeers(PeerStore.Run(ops), h, now), Upserts(ops, h);
            && (forall a :: a in r ==> Current(u, a, now))
            && Unique(r)
            && (forall p, q, i, j :: 0 <= p < q < |r| && LastOf(u, i, r[p]) && LastOf(u, j, r[q]) ==> i > j)
  {
    hide Clock, PeerStore.Run, Exact, Current, LastOf;
    var items, u := PeerStore.Recent(ops, h), Upserts(ops, h);
    var r := LivePeers(PeerStore.Run(ops), h, now);
    UpsertsArePuts(ops, h);
    LivePeersAreExact(ops, h, now);
    var all := Alive(items, now);
    var ps := AlivePlaces(items, now);
    KeysAreUnique(items, u);
    KeysAt(items);
    hide Alive, Keys, PeerStore.Recent, Upserts, LivePeers;
    assert r <= all;
    forall a | a in r
      ensures Current(u, a, now)
    {
      var k :| 0 <= k < |r| && r[k] == a;
      assert all[k] == a;
      CurrentIff(items, u, a, now);
    }
    forall p, q | 0 <= p < q < |r|
      ensures r[p] != r[q]
      ensures forall i, j :: LastOf(u, i, r[p]) && LastOf(u, j, r[q]) ==> i > j
    {
      assert r[p] == all[p] && r[q] == all[q];
      assert Keys(items)[ps[p]] == r[p] && Keys(items)[ps[q]] == r[q];
      forall i, j | LastOf(u, i, r[p]) && LastOf(u, j, r[q])
        ensures i > j
      {
        EarlierIsLater(items, u, ps[p], ps[q], i, j);
      }
    }
  }

  /** Unless ten thousand other hashes were once touched since the hash was, live_peers answers exactly
      the addresses whose last upsert for the hash is less than thirty minutes old and that fewer than
      fifty others have followed. */
  lemma AnswersAreExact(ops: seq<PeerStore.Op>, h: InfoHash, now: int, a: PeerAddress)
    requires Clock(ops, now) && Uncrowded(ops, h)
    ensures a in LivePeers(PeerStore.Run(ops), h, now) <==> Current(Upserts(ops, h), a, now)
  {
    hide Clock, PeerStore.Run, Exact, Current, Alive, PeerStore.Recent, Upserts, Uncrowded;
    UpsertsArePuts(ops, h);
    LivePeersAreExact(ops, h, now);
    CurrentIff(PeerStore.Recent(ops, h), Upserts(ops, h), a, now);
  }
}
