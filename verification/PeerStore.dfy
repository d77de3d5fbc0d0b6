/** The peers known for each info-hash, with their last-seen times (src/dht/dht_peer_store.cpp):
    a cache of caches, expired by looking only at the front of each inner one. */
module PeerStore {
  import opened Common
  import opened NodeIds
  import opened Nearest
  import opened Lru
  import opened LruList

  const PEER_TTL: int := 30 * 60 * 1000    // milliseconds
  const MAX_PEERS: nat := 50
  const MAX_HASHES: nat := 10000

  type InfoHash = NodeId
  type Peers = seq<Pair<PeerAddress, int>>
  type Buckets = seq<Pair<InfoHash, Peers>>

  // ---------------------------------------------------------------------------
  // Operations
  // ---------------------------------------------------------------------------

  function PeersOf(b: Buckets, h: InfoHash): (p: Peers) {
    match Find(b, h) case None => [] case Some(p) => p
  }

  /** ensure_bucket, also the first half of upsert. */
  function Ensure(b: Buckets, h: InfoHash): (r: Buckets)
    ensures r != [] && r[0].key == h
  {
    if Find(b, h).Some? then Lru.Get(b, h) else Lru.Put(b, MAX_HASHES, h, [])
  }

  function Upsert(b: Buckets, h: InfoHash, a: PeerAddress, now: int): (r: Buckets) {
    var t := Ensure(b, h);
    [Pair(h, Lru.Put(t[0].value, MAX_PEERS, a, now))] + t[1..]
  }

  /** The addresses seen within the time to live, in list order. */
  function Alive(peers: Peers, now: int): (r: seq<PeerAddress>) {
    if peers == [] then []
    else (if now - peers[0].value < PEER_TTL then [peers[0].key] else []) + Alive(peers[1..], now)
  }

  /** live_peers answers this and touches the bucket. */
  function LivePeers(b: Buckets, h: InfoHash, now: int): (r: seq<PeerAddress>) {
    Alive(PeersOf(b, h), now)
  }

  /** The test of expire_stale, which looks at the front peer only. */
  predicate FrontIsDead(peers: Peers, now: int) {
    peers == [] || now - peers[0].value >= PEER_TTL
  }

  function Expire(b: Buckets, now: int): (r: Buckets) {
    if b == [] then []
    else Expire(b[..|b| - 1], now) + if FrontIsDead(b[|b| - 1].value, now) then [] else [b[|b| - 1]]
  }

  datatype Op =
    | UpsertOp(hash: InfoHash, addr: PeerAddress, at: int)
    | EnsureOp(hash: InfoHash, at: int)
    | LiveOp(hash: InfoHash, at: int)
    | ExpireOp(at: int)

  function Apply(b: Buckets, op: Op): (r: Buckets) {
    match op
    case UpsertOp(h, a, now) => Upsert(b, h, a, now)
    case EnsureOp(h, _) => Ensure(b, h)
    case LiveOp(h, _) => Lru.Get(b, h)
    case ExpireOp(now) => Expire(b, now)
  }

  function Run(ops: seq<Op>): (b: Buckets) {
    if ops == [] then [] else Apply(Run(ops[..|ops| - 1]), ops[|ops| - 1])
  }

  /** The clock never runs backwards, and the run ends by `now`. */
  ghost predicate Clock(ops: seq<Op>, now: int) {
    && (forall i, j :: 0 <= i < j < |ops| ==> ops[i].at <= ops[j].at)
    && (forall i :: 0 <= i < |ops| ==> ops[i].at <= now)
  }

  // ---------------------------------------------------------------------------
  // The history of one hash
  // ---------------------------------------------------------------------------

  /** The upserts for one hash, as puts into an LRU cache. */
  function Upserts(ops: seq<Op>, h: InfoHash): (r: seq<Lru.Op<PeerAddress, int>>) {
    if ops == [] then []
    else
      var op := ops[|ops| - 1];
      Upserts(ops[..|ops| - 1], h) + if op.UpsertOp? && op.hash == h then [PutOp(op.addr, op.at)] else []
  }

  /** What a bucket would hold had it never been dropped: by Lru.LruIsRecent the fifty addresses most
      recently upserted for the hash, latest first, each with the time of its last upsert. */
  function Recent(ops: seq<Op>, h: InfoHash): (r: Peers) {
    Lru.Run(MAX_PEERS, Upserts(ops, h))
  }

  /** Latest first, none later than `now`. */
  ghost predicate LatestFirst(peers: Peers, now: int) {
    && (forall i, j :: 0 <= i < j < |peers| ==> peers[i].value >= peers[j].value)
    && (forall i :: 0 <= i < |peers| ==> peers[i].value <= now)
  }

  ghost predicate AllDead(peers: Peers, now: int) {
    forall i :: 0 <= i < |peers| ==> now - peers[i].value >= PEER_TTL
  }

  // ---------------------------------------------------------------------------
  // Sequence facts
  // ---------------------------------------------------------------------------

  lemma {:induction false} WithoutFrom(peers: Peers, a: PeerAddress)
    ensures forall x :: x in Without(peers, a) ==> x in peers
  {
    if peers != [] {
      WithoutFrom(peers[1..], a);
    }
  }

  lemma LatestTail(peers: Peers, now: int)
    requires LatestFirst(peers, now) && peers != []
    ensures LatestFirst(peers[1..], now)
    ensures forall x :: x in peers[1..] ==> x.value <= peers[0].value
  {
  }

  lemma LatestCons(x: Pair<PeerAddress, int>, peers: Peers, now: int)
    requires LatestFirst(peers, now) && x.value <= now
    requires forall y :: y in peers ==> y.value <= x.value
    ensures LatestFirst([x] + peers, now)
  {
    var r := [x] + peers;
    forall i, j | 0 <= i < j < |r|
      ensures r[i].value >= r[j].value
    {
      assert r[j] == peers[j - 1];
      assert peers[j - 1] in peers;
    }
  }

  lemma {:induction false} WithoutLatest(peers: Peers, a: PeerAddress, now: int)
    requires LatestFirst(peers, now)
    ensures LatestFirst(Without(peers, a), now)
  {
    if peers != [] {
      LatestTail(peers, now);
      WithoutLatest(peers[1..], a, now);
      WithoutFrom(peers[1..], a);
      var rest := Without(peers[1..], a);
      if peers[0].key == a {
        assert Without(peers, a) == rest;
      } else {
        assert Without(peers, a) == [peers[0]] + rest;
        LatestCons(peers[0], rest, now);
      }
    }
  }

  /** A put at the current time keeps the order. */
  lemma PutLatest(peers: Peers, capacity: nat, a: PeerAddress, now: int)
    requires LatestFirst(peers, now)
    ensures LatestFirst(Lru.Put(peers, capacity, a, now), now)
  {
    WithoutLatest(peers, a, now);
    var rest := if Find(peers, a).Some? then Without(peers, a) else Evicted(peers, capacity);
    forall y | y in rest
      ensures y.value <= now
    {
      var i :| 0 <= i < |rest| && rest[i] == y;
    }
    hide Without;
    LatestCons(Pair(a, now), rest, now);
  }

  lemma {:induction false} WithoutConcat(p: Peers, q: Peers, a: PeerAddress)
    ensures Without(p + q, a) == Without(p, a) + Without(q, a)
  {
    if p == [] {
      assert p + q == q;
    } else {
      WithoutConcat(p[1..], q, a);
      assert (p + q)[1..] == p[1..] + q;
      var head := if p[0].key == a then [] else [p[0]];
      assert Without(p + q, a) == head + Without(p[1..] + q, a);
      assert Without(p, a) == head + Without(p[1..], a);
      hide Without;
      ConcatAssoc(head, Without(p[1..], a), Without(q, a));
    }
  }

  lemma {:induction false} FindConcat<K, V>(p: seq<Pair<K, V>>, q: seq<Pair<K, V>>, a: K)
    ensures Find(p + q, a) == if Find(p, a).Some? then Find(p, a) else Find(q, a)
  {
    if p == [] {
      assert p + q == q;
    } else {
      FindConcat(p[1..], q, a);
      assert (p + q)[1..] == p[1..] + q;
    }
  }

  /** A put into a prefix of a list gives a prefix of the put into the list; what is cut off was
      cut off before. */
  lemma PutPrefix(p: Peers, q: Peers, a: PeerAddress, now: int) returns (rest: Peers)
    requires |p + q| <= MAX_PEERS
    ensures Lru.Put(p + q, MAX_PEERS, a, now) == Lru.Put(p, MAX_PEERS, a, now) + rest
    ensures forall x :: x in rest ==> x in q
  {
    var x := Pair(a, now);
    FindConcat(p, q, a);
    if Find(p + q, a).Some? {
      WithoutConcat(p, q, a);
      WithoutFrom(q, a);
      rest := Without(q, a);
      if Find(p, a).None? {
        FindSpec(p, a);
        NoneWithout(p, a);
      }
    } else if q == [] {
      rest := [];
      assert p + q == p;
    } else if |p + q| == MAX_PEERS {
      rest := q[..|q| - 1];
      assert (p + q)[..|p + q| - 1] == p + rest;
    } else {
      rest := q;
    }
    assert [x] + (p + rest) == ([x] + p) + rest;
    assert [x] + (Without(p, a) + rest) == ([x] + Without(p, a)) + rest;
  }

  lemma {:induction false} AliveConcat(p: Peers, q: Peers, now: int)
    ensures Alive(p + q, now) == Alive(p, now) + Alive(q, now)
  {
    if p == [] {
      assert p + q == q;
    } else {
      AliveConcat(p[1..], q, now);
      assert (p + q)[1..] == p[1..] + q;
      var head := if now - p[0].value < PEER_TTL then [p[0].key] else [];
      assert Alive(p + q, now) == head + Alive(p[1..] + q, now);
      assert Alive(p, now) == head + Alive(p[1..], now);
      hide Alive;
      ConcatAssoc(head, Alive(p[1..], now), Alive(q, now));
    }
  }

  lemma {:induction false} DeadIsSilent(peers: Peers, now: int)
    ensures AllDead(peers, now) <==> Alive(peers, now) == []
  {
    if peers != [] {
      DeadIsSilent(peers[1..], now);
      assert AllDead(peers, now) <==> now - peers[0].value >= PEER_TTL && AllDead(peers[1..], now) by {
        assert forall i :: 1 <= i < |peers| ==> peers[i] == peers[1..][i - 1];
        assert forall i :: 0 <= i < |peers| - 1 ==> peers[1..][i] == peers[i + 1];
      }
    }
  }

  /** In a list with the latest peer first, the front peer decides for all. */
  lemma FrontDecides(peers: Peers, now: int, later: int)
    requires LatestFirst(peers, now)
    ensures FrontIsDead(peers, later) <==> Alive(peers, later) == []
    ensures FrontIsDead(peers, later) <==> AllDead(peers, later)
  {
    DeadIsSilent(peers, later);
  }

  // ---------------------------------------------------------------------------
  // What each operation does to one bucket
  // ---------------------------------------------------------------------------

  ghost predicate Shape<K, V>(items: seq<Pair<K, V>>, capacity: nat) {
    Unique(Keys(items)) && |items| <= capacity
  }

  lemma FrontShape<K, V>(items: seq<Pair<K, V>>, capacity: nat, k: K, v: V)
    requires Shape(items, capacity) && Find(items, k).Some?
    ensures Shape([Pair(k, v)] + Without(items, k), capacity)
  {
    FindSpec(items, k);
    hide Find, Without;
    KeysAt(items);
    var p :| 0 <= p < |items| && Keys(items)[p] == k;
    WithoutAt(items, p);
    WithoutKeys(items, k);
    DropSpec(Keys(items), k);
    hide Unique;
    UniqueCons(k, Drop(Keys(items), k));
    KeysCons(Pair(k, v), Without(items, k));
  }

  lemma PutShape<K, V>(items: seq<Pair<K, V>>, capacity: nat, k: K, v: V)
    requires Shape(items, capacity) && capacity > 0
    ensures Shape(Lru.Put(items, capacity, k, v), capacity)
  {
    hide Unique, Find, Without, Keys;
    if Find(items, k).Some? {
      FrontShape(items, capacity, k, v);
    } else {
      FindSpec(items, k);
      var kept := Evicted(items, capacity);
      KeysPrefix(items, |kept|);
      UniquePrefix(Keys(items), |kept|);
      assert kept == items[..|kept|];
      UniqueCons(k, Keys(kept));
      KeysCons(Pair(k, v), kept);
    }
  }

  lemma GetShape<K, V>(items: seq<Pair<K, V>>, capacity: nat, k: K)
    requires Shape(items, capacity)
    ensures Shape(Lru.Get(items, k), capacity)
    ensures forall x :: Find(Lru.Get(items, k), x) == Find(items, x)
  {
    hide Unique;
    if Find(items, k).Some? {
      FrontShape(items, capacity, k, Find(items, k).value);
      GetFinds(items, k);
    }
  }

  lemma GetFinds<K, V>(items: seq<Pair<K, V>>, k: K)
    ensures forall x :: Find(Lru.Get(items, k), x) == Find(items, x)
  {
    if Find(items, k).Some? {
      var v := Find(items, k).value;
      KeysCons(Pair(k, v), Without(items, k));
      forall x
        ensures Find(Lru.Get(items, k), x) == Find(items, x)
      {
        if x != k {
          WithoutValues(items, k, x);
        }
      }
    }
  }

  lemma EnsureShape(b: Buckets, h: InfoHash)
    requires Shape(b, MAX_HASHES)
    ensures Shape(Ensure(b, h), MAX_HASHES)
  {
    hide Shape;
    if Find(b, h).Some? {
      GetShape(b, MAX_HASHES, h);
    } else {
      PutShape(b, MAX_HASHES, h, []);
    }
  }

  /** Making room for a hash leaves every other bucket alone, or, when the store is full and the hash
      is new, evicts one. */
  lemma EnsurePeers(b: Buckets, h: InfoHash, g: InfoHash)
    requires Shape(b, MAX_HASHES)
    ensures Find(Ensure(b, h), g) == Some(PeersOf(b, h)) || g != h
    ensures PeersOf(Ensure(b, h), g) == PeersOf(b, g) || PeersOf(Ensure(b, h), g) == []
    ensures g == h || Find(b, h).Some? || |b| < MAX_HASHES ==> PeersOf(Ensure(b, h), g) == PeersOf(b, g)
    ensures Find(Ensure(b, h), g).Some? ==> g == h || Find(b, g).Some?
  {
    hide Unique, Keys;
    if Find(b, h).Some? {
      GetFinds(b, h);
    } else {
      var kept := Evicted(b, MAX_HASHES);
      assert kept == b[..|kept|];
      KeysCons(Pair(h, []), kept);
      FindSpec(kept, g);
      if g in Keys(kept) {
        FindPrefix(b, |kept|, g);
      }
    }
  }

  lemma UpsertPeers(b: Buckets, h: InfoHash, a: PeerAddress, now: int, g: InfoHash)
    requires Shape(b, MAX_HASHES)
    ensures Shape(Upsert(b, h, a, now), MAX_HASHES)
    ensures PeersOf(Upsert(b, h, a, now), g)
            == if g == h then Lru.Put(PeersOf(b, h), MAX_PEERS, a, now) else PeersOf(Ensure(b, h), g)
    ensures Find(Upsert(b, h, a, now), g).Some? <==> Find(Ensure(b, h), g).Some?
  {
    EnsureShape(b, h);
    EnsurePeers(b, h, h);
    hide Unique, Ensure;
    var t := Ensure(b, h);
    var tail := t[1..];
    assert t == [t[0]] + tail;
    KeysCons(t[0], tail);
    KeysCons(Pair(h, Lru.Put(t[0].value, MAX_PEERS, a, now)), tail);
  }

  lemma {:induction false} ExpireShape(b: Buckets, now: int)
    requires Shape(b, MAX_HASHES)
    ensures Shape(Expire(b, now), MAX_HASHES) && |Expire(b, now)| <= |b|
    ensures forall g :: g in Keys(Expire(b, now)) ==> g in Keys(b)
  {
    hide Unique, Keys;
    if b != [] {
      var init, last := SplitLast(b);
      ExpireShape(init, now);
      var kept := Expire(init, now);
      KeysSnoc(init, last);
      KeysSnoc(kept, last);
      if !FrontIsDead(last.value, now) {
        assert Expire(b, now) == kept + [last];
        UniqueSnoc(Keys(kept), last.key);
      } else {
        assert Expire(b, now) == kept;
      }
    }
  }

  lemma SplitLast(b: Buckets) returns (init: Buckets, last: Pair<InfoHash, Peers>)
    requires Shape(b, MAX_HASHES) && b != []
    ensures init == b[..|b| - 1] && last == b[|b| - 1] && b == init + [last]
    ensures Shape(init, MAX_HASHES) && last.key !in Keys(init)
  {
    var n := |b| - 1;
    init, last := b[..n], b[n];
    KeysAt(b);
    KeysPrefix(b, n);
    UniquePrefix(Keys(b), n);
    UniqueAt(Keys(b), n, n);
  }

  lemma {:induction false} ExpireFinds(b: Buckets, now: int, g: InfoHash)
    requires Shape(b, MAX_HASHES)
    ensures Find(Expire(b, now), g)
            == if Find(b, g).Some? && !FrontIsDead(Find(b, g).value, now) then Find(b, g) else None
  {
    hide Shape, FrontIsDead, Find, Keys;
    if b == [] {
      FindSpec(b, g);
      KeysAt(b);
    } else {
      var init, last := SplitLast(b);
      ExpireFinds(init, now, g);
      FindConcat(init, [last], g);
      FindConcat(Expire(init, now), [last], g);
      FindSpec(init, last.key);
      FindOne(last, g);
      assert FrontIsDead(last.value, now) ==> Expire(b, now) == Expire(init, now);
    }
  }

  lemma FindOne<K, V>(p: Pair<K, V>, g: K)
    ensures Find([p], g) == if p.key == g then Some(p.value) else None
  {
  }

  lemma KeysSnoc<K, V>(items: seq<Pair<K, V>>, p: Pair<K, V>)
    ensures Keys(items + [p]) == Keys(items) + [p.key]
  {
    KeysAt(items + [p]);
    KeysAt(items);
  }

  lemma UniqueSnoc<T>(s: seq<T>, x: T)
    requires Unique(s) && x !in s
    ensures Unique(s + [x])
  {
  }

  // ---------------------------------------------------------------------------
  // What holds after every run
  // ---------------------------------------------------------------------------

  /** The hashes a run makes buckets for. */
  function Named(ops: seq<Op>): (hs: set<InfoHash>) {
    if ops == [] then {}
    else
      var op := ops[|ops| - 1];
      Named(ops[..|ops| - 1]) + if op.UpsertOp? || op.EnsureOp? then {op.hash} else {}
  }

  lemma ClockInit(ops: seq<Op>, now: int)
    requires Clock(ops, now) && ops != []
    ensures Clock(ops[..|ops| - 1], ops[|ops| - 1].at) && ops[|ops| - 1].at <= now
  {
  }

  lemma {:induction false} RecentOrdered(ops: seq<Op>, h: InfoHash, now: int)
    requires Clock(ops, now)
    ensures LatestFirst(Recent(ops, h), now) && Shape(Recent(ops, h), MAX_PEERS)
  {
    if ops != [] {
      hide Clock, Shape, LatestFirst;
      var before, op := ops[..|ops| - 1], ops[|ops| - 1];
      ClockInit(ops, now);
      RecentOrdered(before, h, op.at);
      var was, puts := Recent(before, h), Upserts(before, h);
      if op.UpsertOp? && op.hash == h {
        assert Upserts(ops, h) == puts + [PutOp(op.addr, op.at)];
        assert (puts + [PutOp(op.addr, op.at)])[..|puts|] == puts;
        PutLatest(was, MAX_PEERS, op.addr, op.at);
        PutShape(was, MAX_PEERS, op.addr, op.at);
      } else {
        assert Upserts(ops, h) == puts;
      }
      LatestLater(Recent(ops, h), op.at, now);
    } else {
      assert Recent(ops, h) == [];
    }
  }

  lemma LatestLater(peers: Peers, t: int, now: int)
    requires LatestFirst(peers, t) && t <= now
    ensures LatestFirst(peers, now)
  {
  }

  /** Every step keeps hashes unique and bounded, and makes buckets only for the hashes it names. */
  lemma {:induction false} StoreShape(ops: seq<Op>, h: InfoHash)
    ensures Shape(Run(ops), MAX_HASHES)
    ensures h in Keys(Run(ops)) ==> h in Named(ops)
  {
    if ops != [] {
      var before, op := ops[..|ops| - 1], ops[|ops| - 1];
      StoreShape(before, h);
      var b := Run(before);
      hide Shape, Keys, Find;
      FindSpec(b, h);
      FindSpec(Run(ops), h);
      match op {
        case UpsertOp(g, a, t) =>
          UpsertPeers(b, g, a, t, h);
          EnsurePeers(b, g, h);
        case EnsureOp(g, _) =>
          EnsureShape(b, g);
          EnsurePeers(b, g, h);
        case LiveOp(g, _) => GetShape(b, MAX_HASHES, g);
        case ExpireOp(t) => ExpireShape(b, t);
      }
    }
  }

  // ---------------------------------------------------------------------------
  // Which hashes are evicted
  // ---------------------------------------------------------------------------

  /** The hash whose bucket the operation brings to the front. */
  function Touched(b: Buckets, op: Op): (h: Option<InfoHash>) {
    match op
    case UpsertOp(h, _, _) => Some(h)
    case EnsureOp(h, _) => Some(h)
    case LiveOp(h, _) => if Find(b, h).Some? then Some(h) else None
    case ExpireOp(_) => None
  }

  /** The other hashes touched since hash h was last touched. */
  function Crowd(ops: seq<Op>, h: InfoHash): (hs: set<InfoHash>) {
    if ops == [] then {}
    else
      var before := ops[..|ops| - 1];
      var t := Touched(Run(before), ops[|ops| - 1]);
      if t == Some(h) || h !in Named(before) then {}
      else Crowd(before, h) + if t.Some? then {t.value} else {}
  }

  /** At no point of the run were ten thousand others touched since the hash was. */
  predicate Uncrowded(ops: seq<Op>, h: InfoHash) {
    ops == [] || (Uncrowded(ops[..|ops| - 1], h) && |Crowd(ops, h)| < 10000)
  }

  predicate Ahead(ks: seq<InfoHash>, x: InfoHash, h: InfoHash) {
    exists j :: 0 <= j < |ks| && ks[j] == h && x in ks[..j]
  }

  lemma AheadCons(k: InfoHash, ks: seq<InfoHash>, x: InfoHash, h: InfoHash)
    ensures Ahead([k] + ks, x, h) <==> (x == k && h in ks) || Ahead(ks, x, h)
  {
    var r := [k] + ks;
    if j :| 0 <= j < |r| && r[j] == h && x in r[..j] {
      assert ks[j - 1] == h && r[..j] == [k] + ks[..j - 1];
    }
    if j :| 0 <= j < |ks| && ks[j] == h && (x == k || x in ks[..j]) {
      assert r[j + 1] == h && r[..j + 1] == [k] + ks[..j];
    }
  }

  lemma AheadSnoc(ks: seq<InfoHash>, k: InfoHash, x: InfoHash, h: InfoHash)
    ensures Ahead(ks + [k], x, h) <==> (h == k && x in ks) || Ahead(ks, x, h)
  {
    var r := ks + [k];
    if j :| 0 <= j < |r| && r[j] == h && x in r[..j] {
      assert r[..j] == ks[..j];
      if j == |ks| {
        assert ks[..j] == ks;
      }
    }
    if j :| 0 <= j < |ks| && ks[j] == h && x in ks[..j] {
      assert r[j] == h && r[..j] == ks[..j];
    }
    if h == k && x in ks {
      assert r[|ks|] == h && r[..|ks|] == ks;
    }
  }

  lemma {:induction false} AheadDrop(ks: seq<InfoHash>, g: InfoHash, x: InfoHash, h: InfoHash)
    ensures Ahead(Drop(ks, g), x, h) <==> x != g && h != g && Ahead(ks, x, h)
  {
    if ks != [] {
      var k, tail := ks[0], ks[1..];
      AheadDrop(tail, g, x, h);
      DropSpec(tail, g);
      assert ks == [k] + tail;
      AheadCons(k, tail, x, h);
      AheadCons(k, Drop(tail, g), x, h);
      assert Drop(ks, g) == if k == g then Drop(tail, g) else [k] + Drop(tail, g);
      hide Drop, Ahead;
    }
  }

  lemma {:induction false} AheadExpired(b: Buckets, now: int, x: InfoHash, h: InfoHash)
    requires Shape(b, MAX_HASHES)
    ensures Ahead(Keys(Expire(b, now)), x, h) ==> Ahead(Keys(b), x, h)
  {
    if b != [] {
      var init, last := SplitLast(b);
      AheadExpired(init, now, x, h);
      ExpireShape(init, now);
      KeysSnoc(init, last);
      KeysSnoc(Expire(init, now), last);
      AheadSnoc(Keys(init), last.key, x, h);
      AheadSnoc(Keys(Expire(init, now)), last.key, x, h);
      assert Expire(b, now) == if FrontIsDead(last.value, now) then Expire(init, now) else Expire(init, now) + [last];
      hide Expire, Ahead, Keys, Shape, FrontIsDead;
    }
  }

  /** What is behind the front after a touch of hash g. */
  function Behind(ks: seq<InfoHash>, g: InfoHash): (r: seq<InfoHash>) {
    if g in ks then Drop(ks, g) else if |ks| >= MAX_HASHES then ks[..|ks| - 1] else ks
  }

  lemma TouchKeys(b: Buckets, op: Op)
    requires Shape(b, MAX_HASHES) && Touched(b, op).Some?
    ensures Keys(Apply(b, op)) == [Touched(b, op).value] + Behind(Keys(b), Touched(b, op).value)
  {
    var g := Touched(b, op).value;
    FindSpec(b, g);
    KeysAt(b);
    WithoutKeys(b, g);
    hide Unique, Drop, Find, Without;
    if Find(b, g).Some? {
      KeysCons(Pair(g, Find(b, g).value), Without(b, g));
    } else {
      var kept := Evicted(b, MAX_HASHES);
      KeysPrefix(b, |kept|);
      assert kept == b[..|kept|];
      KeysCons(Pair(g, []), kept);
      assert Keys(b)[..|b|] == Keys(b);
    }
    hide Keys;
    if op.UpsertOp? {
      var t := Ensure(b, g);
      assert t == [t[0]] + t[1..];
      KeysCons(t[0], t[1..]);
      KeysCons(Pair(g, Lru.Put(t[0].value, MAX_PEERS, op.addr, op.at)), t[1..]);
      assert Keys(t)[1..] == Keys(t[1..]);
    }
  }

  lemma AheadBehind(ks: seq<InfoHash>, g: InfoHash, x: InfoHash, h: InfoHash)
    requires Unique(ks)
    ensures Ahead(Behind(ks, g), x, h) ==> Ahead(ks, x, h)
    ensures x != g && h in Behind(ks, g) && Ahead(ks, x, h) ==> Ahead(Behind(ks, g), x, h)
    ensures g !in Behind(ks, g) && forall y :: y in Behind(ks, g) ==> y in ks
  {
    AheadDrop(ks, g, x, h);
    DropSpec(ks, g);
    hide Drop;
    if g !in ks && |ks| >= MAX_HASHES {
      var n := |ks| - 1;
      assert ks == ks[..n] + [ks[n]];
      AheadSnoc(ks[..n], ks[n], x, h);
    }
  }

  /** One operation on the order of the hashes. */
  lemma AheadStep(b: Buckets, op: Op, x: InfoHash, h: InfoHash)
    requires Shape(b, MAX_HASHES) && Ahead(Keys(Apply(b, op)), x, h)
    ensures Touched(b, op) != Some(h) && h in Keys(b)
    ensures Touched(b, op) == Some(x) || Ahead(Keys(b), x, h)
  {
    hide Ahead, Drop, Find, Apply;
    var ks, t := Keys(b), Touched(b, op);
    if t.Some? {
      TouchKeys(b, op);
      var g := t.value;
      AheadBehind(ks, g, x, h);
      AheadCons(g, Behind(ks, g), x, h);
      hide Behind;
      if Ahead(Behind(ks, g), x, h) {
        AheadIn(Behind(ks, g), x, h);
      }
    } else {
      Untouched(b, op, x, h);
      AheadIn(ks, x, h);
    }
  }

  lemma AheadIn(ks: seq<InfoHash>, x: InfoHash, h: InfoHash)
    requires Ahead(ks, x, h)
    ensures x in ks && h in ks
  {
  }

  lemma Untouched(b: Buckets, op: Op, x: InfoHash, h: InfoHash)
    requires Shape(b, MAX_HASHES) && Touched(b, op).None?
    ensures Ahead(Keys(Apply(b, op)), x, h) ==> Ahead(Keys(b), x, h)
    ensures !op.ExpireOp? ==> Apply(b, op) == b
  {
    if op.ExpireOp? {
      AheadExpired(b, op.at, x, h);
    }
  }

  /** Whatever is ahead of a hash in the store was touched since it was. */
  lemma {:induction false} AheadIsCrowd(ops: seq<Op>, x: InfoHash, h: InfoHash)
    requires Ahead(Keys(Run(ops)), x, h)
    ensures x in Crowd(ops, h)
  {
    hide Ahead, Apply, Keys, Touched, Shape;
    if ops == [] {
      EmptyKeys();
      AheadIn(Keys(Run(ops)), x, h);
    } else {
      var before, op := ops[..|ops| - 1], ops[|ops| - 1];
      StoreShape(before, h);
      AheadStep(Run(before), op, x, h);
      if Ahead(Keys(Run(before)), x, h) {
        AheadIsCrowd(before, x, h);
      }
    }
  }

  lemma EmptyKeys()
    ensures Keys<InfoHash, Peers>([]) == []
  {
  }

  /** The touch of a new hash evicts the last one; if that is h, its crowd has become too large. */
  lemma EvictedIsCrowded(before: seq<Op>, op: Op, h: InfoHash)
    requires op.UpsertOp? || op.EnsureOp?
    requires h in Keys(Run(before)) && h !in Keys(Run(before + [op]))
    ensures |Crowd(before + [op], h)| >= MAX_HASHES
  {
    hide Drop, Find, Apply, Ahead, Shape;
    var b, g := Run(before), op.hash;
    var ks := Keys(b);
    assert (before + [op])[..|before|] == before;
    StoreShape(before, h);
    assert Unique(ks) && |b| <= MAX_HASHES by { ShapeSays(b); }
    KeysAt(b);
    TouchKeys(b, op);
    DropSpec(ks, g);
    var n := |ks| - 1;
    assert g !in ks && n + 1 == MAX_HASHES && h == ks[n] && h != g by { LastOut(ks, g, h); }
    hide Keys, Run, Behind;
    forall x | x in SetOf(ks[..n])
      ensures x in Crowd(before, h)
    {
      assert Ahead(ks, x, h) by { AheadOfLast(ks, x); }
      AheadIsCrowd(before, x, h);
    }
    UniquePrefix(ks, n);
    UniqueSize(ks[..n]);
    assert Crowd(before + [op], h) == Crowd(before, h) + {g};
    hide Crowd;
    assert g !in ks[..n];
    SubsetSize(SetOf(ks[..n]) + {g}, Crowd(before, h) + {g});
  }

  lemma ShapeSays(b: Buckets)
    requires Shape(b, MAX_HASHES)
    ensures Unique(Keys(b)) && |b| <= MAX_HASHES
  {
  }

  lemma AheadOfLast(ks: seq<InfoHash>, x: InfoHash)
    requires ks != [] && x in ks[..|ks| - 1]
    ensures Ahead(ks, x, ks[|ks| - 1])
  {
  }

  lemma LastOut(ks: seq<InfoHash>, g: InfoHash, h: InfoHash)
    requires h in ks && h !in [g] + Behind(ks, g) && |ks| <= MAX_HASHES
    ensures g !in ks && |ks| == MAX_HASHES && h == ks[|ks| - 1] && h != g
  {
    DropSpec(ks, g);
    hide Drop;
    SplitEnd(ks);
  }

  /** An uncrowded hash loses nothing when room is made for another. */
  lemma NotEvicted(before: seq<Op>, op: Op, h: InfoHash)
    requires op.UpsertOp? || op.EnsureOp?
    requires |Crowd(before + [op], h)| < MAX_HASHES
    ensures PeersOf(Ensure(Run(before), op.hash), h) == PeersOf(Run(before), h)
  {
    hide Drop, Shape, Ahead, Crowd, Ensure, Keys, Find;
    var b := Run(before);
    StoreShape(before, h);
    EnsureLosesOne(b, op.hash, h);
    if h in Keys(b) && h !in Keys(Ensure(b, op.hash)) {
      assert (before + [op])[..|before|] == before;
      assert h !in Keys(Run(before + [op])) by {
        if op.UpsertOp? {
          UpsertPeers(b, op.hash, op.addr, op.at, h);
          FindSpec(Ensure(b, op.hash), h);
          FindSpec(Run(before + [op]), h);
        }
      }
      EvictedIsCrowded(before, op, h);
    }
  }

  /** Unless it is evicted, a bucket keeps its peers. */
  lemma EnsureLosesOne(b: Buckets, g: InfoHash, h: InfoHash)
    requires Shape(b, MAX_HASHES)
    ensures PeersOf(Ensure(b, g), h) == PeersOf(b, h) || (h in Keys(b) && h !in Keys(Ensure(b, g)))
  {
    FindSpec(b, h);
    FindSpec(Ensure(b, g), h);
    EnsurePeers(b, g, h);
    hide Unique, Keys, Without;
    if h != g && Find(b, g).None? && Find(Ensure(b, g), h).Some? {
      var kept := Evicted(b, MAX_HASHES);
      assert kept == b[..|kept|];
      KeysCons(Pair(g, []), kept);
      FindSpec(kept, h);
      FindPrefix(b, |kept|, h);
    }
  }

  lemma {:induction false} SubsetSize<T>(a: set<T>, b: set<T>)
    requires a <= b
    ensures |a| <= |b|
  {
    if a != {} {
      var x :| x in a;
      SubsetSize(a - {x}, b - {x});
    }
  }

  lemma NamedGrows(before: seq<Op>, op: Op)
    ensures Named(before + [op]) == Named(before) + if op.UpsertOp? || op.EnsureOp? then {op.hash} else {}
    ensures |Named(before)| <= |Named(before + [op])|
  {
    assert (before + [op])[..|before|] == before;
    SubsetSize(Named(before), Named(before + [op]));
  }

  lemma {:induction false} CrowdIsNamed(ops: seq<Op>, h: InfoHash)
    ensures Crowd(ops, h) <= Named(ops) && h !in Crowd(ops, h)
    ensures Crowd(ops, h) != {} ==> h in Named(ops)
  {
    if ops != [] {
      var before, op := ops[..|ops| - 1], ops[|ops| - 1];
      CrowdIsNamed(before, h);
      if op.LiveOp? {
        StoreShape(before, op.hash);
        FindSpec(Run(before), op.hash);
      }
      hide Run;
    }
  }

  /** A run that names at most MAX_HASHES hashes crowds nobody out. */
  lemma {:induction false} FewHashes(ops: seq<Op>, h: InfoHash)
    requires |Named(ops)| <= MAX_HASHES
    ensures Uncrowded(ops, h)
  {
    if ops != [] {
      var before := ops[..|ops| - 1];
      assert ops == before + [ops[|ops| - 1]];
      NamedGrows(before, ops[|ops| - 1]);
      FewHashes(before, h);
      CrowdIsNamed(ops, h);
      hide Named, Crowd;
      if Crowd(ops, h) != {} {
        SubsetSize(Crowd(ops, h) + {h}, Named(ops));
      }
    }
  }

  ghost predicate NoExpiry(ops: seq<Op>) {
    forall i :: 0 <= i < |ops| ==> !ops[i].ExpireOp?
  }

  /** With no expiry the crowd of a stored hash is exactly what is ahead of it. */
  lemma {:induction false} CrowdIsAhead(ops: seq<Op>, x: InfoHash, h: InfoHash)
    requires NoExpiry(ops) && h in Keys(Run(ops)) && x in Crowd(ops, h)
    ensures Ahead(Keys(Run(ops)), x, h)
  {
    hide Ahead, Apply, Keys, Shape, Drop, Find;
    if ops != [] {
      var before, op := ops[..|ops| - 1], ops[|ops| - 1];
      var b, t := Run(before), Touched(Run(before), op);
      StoreShape(before, h);
      if t.None? {
        Untouched(b, op, x, h);
        CrowdIsAhead(before, x, h);
      } else {
        ShapeSays(b);
        TouchKeys(b, op);
        AheadBehind(Keys(b), t.value, x, h);
        AheadCons(t.value, Behind(Keys(b), t.value), x, h);
        hide Behind;
        if x != t.value {
          CrowdIsAhead(before, x, h);
        }
      }
    }
  }

  /** With no expiry a hash that was named is in the store exactly while fewer than ten thousand
      others have been touched since it was. */
  lemma {:induction false} HashKeptIff(ops: seq<Op>, h: InfoHash)
    requires NoExpiry(ops)
    ensures h in Keys(Run(ops)) <==> h in Named(ops) && |Crowd(ops, h)| < 10000
  {
    hide Ahead, Shape, Keys;
    StoreShape(ops, h);
    if h in Keys(Run(ops)) {
      StoredIsUncrowded(ops, h);
    } else if h in Named(ops) {
      var before, op := ops[..|ops| - 1], ops[|ops| - 1];
      HashKeptIff(before, h);
      assert ops == before + [op];
      hide Run, Apply, Touched;
      KeepsOthers(before, op, h);
    }
  }

  lemma KeepsOthers(before: seq<Op>, op: Op, h: InfoHash)
    requires !op.ExpireOp? && h !in Keys(Run(before + [op])) && h in Named(before + [op])
    requires h in Keys(Run(before)) || h !in Named(before) || |Crowd(before, h)| >= MAX_HASHES
    ensures |Crowd(before + [op], h)| >= MAX_HASHES
  {
    hide Ahead, Shape, Keys, Apply, Find, Drop;
    var ops, b := before + [op], Run(before);
    assert ops[..|before|] == before;
    StoreShape(before, h);
    var t := Touched(b, op);
    if t.None? {
      Untouched(b, op, h, h);
    } else {
      TouchKeys(b, op);
    }
    NamedGrows(before, op);
    assert t != Some(h) && h in Named(before);
    if h in Keys(b) {
      if op.LiveOp? {
        DropSpec(Keys(b), op.hash);
        FindSpec(b, op.hash);
        assert false;
      } else {
        EvictedIsCrowded(before, op, h);
      }
    } else {
      SubsetSize(Crowd(before, h), Crowd(ops, h));
    }
  }

  lemma StoredIsUncrowded(ops: seq<Op>, h: InfoHash)
    requires NoExpiry(ops) && h in Keys(Run(ops))
    ensures |Crowd(ops, h)| < MAX_HASHES
  {
    var ks := Keys(Run(ops));
    StoreShape(ops, h);
    KeysAt(Run(ops));
    UniqueSize(ks);
    CrowdIsNamed(ops, h);
    hide Keys, Run, Crowd, Ahead, Unique;
    forall x | x in Crowd(ops, h)
      ensures x in SetOf(ks)
    {
      CrowdIsAhead(ops, x, h);
      AheadIn(ks, x, h);
    }
    SubsetSize(Crowd(ops, h) + {h}, SetOf(ks));
  }

  /** The bucket of a hash is always a prefix of its recent history, and unless the hash was crowded
      out, what is missing has expired. */
  lemma {:induction false} BucketIsPrefix(ops: seq<Op>, h: InfoHash, now: int) returns (rest: Peers)
    requires Clock(ops, now)
    ensures Recent(ops, h) == PeersOf(Run(ops), h) + rest
    ensures Uncrowded(ops, h) ==> AllDead(rest, now)
  {
    if ops == [] {
      rest := [];
    } else {
      var before, op := ops[..|ops| - 1], ops[|ops| - 1];
      assert ops == before + [op];
      hide Clock, Shape, LatestFirst, Find, AllDead;
      ClockInit(ops, now);
      rest := BucketIsPrefix(before, h, op.at);
      rest := PrefixStep(before, op, h, rest);
      StillDead(rest, op.at, now);
    }
  }

  lemma StillDead(rest: Peers, t: int, now: int)
    requires t <= now
    ensures AllDead(rest, t) ==> AllDead(rest, now)
  {
  }

  lemma DeadParts(all: Peers, p: Peers, now: int)
    requires AllDead(all, now)
    requires forall x :: x in p ==> x in all
    ensures AllDead(p, now)
  {
    forall i | 0 <= i < |p|
      ensures now - p[i].value >= PEER_TTL
    {
      assert p[i] in all;
      var j :| 0 <= j < |all| && all[j] == p[i];
    }
  }

  lemma DeadConcat(p: Peers, q: Peers, now: int)
    requires AllDead(p, now) && AllDead(q, now)
    ensures AllDead(p + q, now)
  {
  }

  lemma LatestPrefix(p: Peers, q: Peers, now: int)
    requires LatestFirst(p + q, now)
    ensures LatestFirst(p, now)
  {
    forall i, j | 0 <= i < j < |p|
      ensures p[i].value >= p[j].value
    {
      assert (p + q)[i] == p[i] && (p + q)[j] == p[j];
    }
    assert forall i :: 0 <= i < |p| ==> (p + q)[i] == p[i];
  }

  lemma PrefixStep(before: seq<Op>, op: Op, h: InfoHash, q: Peers) returns (rest: Peers)
    requires Clock(before, op.at) && Recent(before, h) == PeersOf(Run(before), h) + q
    requires Uncrowded(before, h) ==> AllDead(q, op.at)
    ensures Recent(before + [op], h) == PeersOf(Run(before + [op]), h) + rest
    ensures Uncrowded(before + [op], h) ==> AllDead(rest, op.at)
  {
    hide Clock, Shape, LatestFirst, Find, AllDead, FrontIsDead;
    var ops, b := before + [op], Run(before);
    assert ops[..|ops| - 1] == before;
    assert Run(ops) == Apply(b, op);
    var p := PeersOf(b, h);
    RecentOrdered(before, h, op.at);
    StoreShape(before, h);
    RecentStep(before, op, h);
    assert Uncrowded(ops, h) ==> Uncrowded(before, h) && |Crowd(ops, h)| < MAX_HASHES;
    hide Run, Uncrowded, Crowd, Recent;
    match op {
      case UpsertOp(g, a, t) =>
        UpsertPeers(b, g, a, t, h);
        if g == h {
          assert |p + q| <= MAX_PEERS by { ShapeBound(p + q, MAX_PEERS); }
          rest := PutPrefix(p, q, a, t);
          if Uncrowded(ops, h) {
            DeadParts(q, rest, t);
          }
        } else {
          rest := EnsureStep(before, op, h, q);
        }
      case EnsureOp(g, _) => rest := EnsureStep(before, op, h, q);
      case LiveOp(g, _) =>
        GetShape(b, MAX_HASHES, g);
        rest := q;
      case ExpireOp(t) =>
        ExpireFinds(b, t, h);
        LatestPrefix(p, q, t);
        FrontDecides(p, t, t);
        if FrontIsDead(p, t) {
          FrontOfNone(t);
          assert PeersOf(Apply(b, op), h) == [];
          rest := p + q;
          if Uncrowded(ops, h) {
            DeadConcat(p, q, t);
          }
        } else {
          FrontOfNone(t);
          rest := q;
        }
    }
  }

  lemma FrontOfNone(now: int)
    ensures FrontIsDead([], now)
  {
  }

  lemma ShapeBound<K, V>(items: seq<Pair<K, V>>, capacity: nat)
    requires Shape(items, capacity)
    ensures |items| <= capacity
  {
  }

  lemma RecentStep(before: seq<Op>, op: Op, h: InfoHash)
    ensures Recent(before + [op], h)
            == if op.UpsertOp? && op.hash == h then Lru.Put(Recent(before, h), MAX_PEERS, op.addr, op.at)
               else Recent(before, h)
  {
    assert (before + [op])[..|before|] == before;
    if op.UpsertOp? && op.hash == h {
      var puts := Upserts(before, h);
      assert Upserts(before + [op], h) == puts + [PutOp(op.addr, op.at)];
      assert (puts + [PutOp(op.addr, op.at)])[..|puts|] == puts;
    } else {
      assert Upserts(before + [op], h) == Upserts(before, h);
    }
  }

  lemma EnsureStep(before: seq<Op>, op: Op, h: InfoHash, q: Peers) returns (rest: Peers)
    requires op.UpsertOp? || op.EnsureOp?
    requires Shape(Run(before), MAX_HASHES)
    requires Uncrowded(before, h) ==> AllDead(q, op.at)
    ensures PeersOf(Ensure(Run(before), op.hash), h) + rest == PeersOf(Run(before), h) + q
    ensures Uncrowded(before, h) && |Crowd(before + [op], h)| < MAX_HASHES ==> AllDead(rest, op.at)
  {
    hide Shape, AllDead, Find, Uncrowded, Crowd, Run;
    var b := Run(before);
    EnsurePeers(b, op.hash, h);
    var p := PeersOf(b, h);
    if PeersOf(Ensure(b, op.hash), h) == p {
      rest := q;
    } else {
      rest := p + q;
      assert [] + rest == rest;
      if |Crowd(before + [op], h)| < MAX_HASHES {
        NotEvicted(before, op, h);
        assert false;
      }
    }
  }

  /** Every peer list is in non-increasing last-seen order, has at most fifty peers, and each hash
      has one list. */
  lemma ListsAreOrdered(ops: seq<Op>, now: int, i: nat)
    requires Clock(ops, now) && i < |Run(ops)|
    ensures LatestFirst(Run(ops)[i].value, now) && |Run(ops)[i].value| <= MAX_PEERS
    ensures Unique(Keys(Run(ops))) && |Run(ops)| <= MAX_HASHES
    ensures PeersOf(Run(ops), Run(ops)[i].key) == Run(ops)[i].value
  {
    var b := Run(ops);
    var h := b[i].key;
    StoreShape(ops, h);
    FindAt(b, i);
    RecentOrdered(ops, h, now);
    var rest := BucketIsPrefix(ops, h, now);
    hide Clock, LatestFirst, Run, Find, Recent, Unique;
    LatestPrefix(b[i].value, rest, now);
  }

  /** The buckets a full scan of every peer finds alive. */
  function FullScan(b: Buckets, now: int): (r: Buckets) {
    if b == [] then []
    else FullScan(b[..|b| - 1], now) + if Alive(b[|b| - 1].value, now) == [] then [] else [b[|b| - 1]]
  }

  lemma {:induction false} SameScan(b: Buckets, now: int)
    requires forall i :: 0 <= i < |b| ==> LatestFirst(b[i].value, now)
    ensures Expire(b, now) == FullScan(b, now)
  {
    hide LatestFirst;
    if b != [] {
      SameScan(b[..|b| - 1], now);
      FrontDecides(b[|b| - 1].value, now, now);
    }
  }

  lemma {:induction false} DeadForGood(peers: Peers, now: int, later: int)
    requires Alive(peers, now) == [] && now <= later
    ensures Alive(peers, later) == []
  {
    if peers != [] {
      DeadForGood(peers[1..], now, later);
    }
  }

  /** expire_stale drops exactly the hashes a full scan finds dead, and no answer of live_peers
      changes, then or later. */
  lemma ExpireIsFullScan(ops: seq<Op>, now: int)
    requires Clock(ops, now)
    ensures Expire(Run(ops), now) == FullScan(Run(ops), now)
    ensures forall h, later :: now <= later ==>
              LivePeers(Expire(Run(ops), now), h, later) == LivePeers(Run(ops), h, later)
  {
    hide Clock, LatestFirst, Run, FrontIsDead;
    var b := Run(ops);
    forall i | 0 <= i < |b|
      ensures LatestFirst(b[i].value, now)
    {
      ListsAreOrdered(ops, now, i);
    }
    SameScan(b, now);
    forall h, later | now <= later
      ensures LivePeers(Expire(b, now), h, later) == LivePeers(b, h, later)
    {
      StoreShape(ops, h);
      ExpireFinds(b, now, h);
      var rest := BucketIsPrefix(ops, h, now);
      RecentOrdered(ops, h, now);
      LatestPrefix(PeersOf(b, h), rest, now);
      FrontDecides(PeersOf(b, h), now, now);
      if FrontIsDead(PeersOf(b, h), now) {
        DeadForGood(PeersOf(b, h), now, later);
      }
    }
  }

  /** Whatever the run, live_peers answers the live ones among the fifty addresses most recently
      upserted for the hash, latest first, perhaps cut short by the eviction of hashes; unless the hash
      was crowded out nothing is missing, wherever expire_stale ran. */
  lemma LivePeersAreExact(ops: seq<Op>, h: InfoHash, now: int)
    requires Clock(ops, now)
    ensures LivePeers(Run(ops), h, now) <= Alive(Recent(ops, h), now)
    ensures Uncrowded(ops, h) ==> LivePeers(Run(ops), h, now) == Alive(Recent(ops, h), now)
    ensures Exact(Recent(ops, h), MAX_PEERS, Upserts(ops, h))
  {
    hide Clock, Run, Exact;
    var rest := BucketIsPrefix(ops, h, now);
    AliveConcat(PeersOf(Run(ops), h), rest, now);
    DeadIsSilent(rest, now);
    LruIsRecent(MAX_PEERS, Upserts(ops, h));
  }

  /** What the walk has left so far, and what it has not reached. */
  ghost function Walk(all: Buckets, done: nat, now: int): (r: Buckets)
    requires done <= |all|
  {
    Expire(all[..done], now) + all[done..]
  }

  lemma ExpireStart(all: Buckets, now: int)
    ensures Walk(all, 0, now) == all && Expire(all[..0], now) == []
    ensures all[..|all|] == all
  {
  }

  lemma ExpireStep(all: Buckets, done: nat, now: int)
    requires done <= |all| && |Expire(all[..done], now)| < |Walk(all, done, now)|
    ensures var i, w := |Expire(all[..done], now)|, Walk(all, done, now);
            && done < |all|
            && FrontIsDead(w[i].value, now) == (w[i].value == [] || now - w[i].value[0].value >= PEER_TTL)
            && |Expire(all[..done + 1], now)| == (if FrontIsDead(w[i].value, now) then i else i + 1)
            && Walk(all, done + 1, now) == if FrontIsDead(w[i].value, now) then w[..i] + w[i + 1..] else w
  {
    assert all[..done + 1][..done] == all[..done];
    assert all[done..] == [all[done]] + all[done + 1..];
  }

  // ---------------------------------------------------------------------------
  // The store as a mutable object
  // ---------------------------------------------------------------------------

  class DhtPeerStore {
    const buckets: LruCache<InfoHash, Peers>

    constructor ()
      ensures fresh(buckets) && buckets.Valid() && buckets.capacity == MAX_HASHES && buckets.Contents() == []
    {
      buckets := new LruCache(MAX_HASHES);
    }

    method EnsureBucket(h: InfoHash)
      requires buckets.Valid() && buckets.capacity == MAX_HASHES
      modifies buckets
      ensures buckets.Valid() && buckets.Contents() == Ensure(old(buckets.Contents()), h)
    {
      var found := buckets.Get(h);
      if found.None? {
        buckets.Put(h, []);
      }
    }

    method UpsertPeer(h: InfoHash, a: PeerAddress, now: int)
      requires buckets.Valid() && buckets.capacity == MAX_HASHES
      modifies buckets
      ensures buckets.Valid() && buckets.Contents() == Upsert(old(buckets.Contents()), h, a, now)
    {
      var bucket := buckets.Get(h);
      var peers: Peers := [];
      if bucket.None? {
        buckets.Put(h, []);
      } else {
        peers := bucket.value;
      }
      buckets.StoreAtFront(Lru.Put(peers, MAX_PEERS, a, now));
    }

    method LivePeersOf(h: InfoHash, now: int) returns (result: seq<PeerAddress>)
      requires buckets.Valid()
      modifies buckets
      ensures buckets.Valid() && buckets.Contents() == Lru.Get(old(buckets.Contents()), h)
      ensures result == LivePeers(old(buckets.Contents()), h, now)
    {
      result := [];
      hide LinkedUp, View, Find, Without;
      var bucket := buckets.Get(h);
      if bucket.None? {
        return;
      }
      var peers := bucket.value;
      for i := 0 to |peers|
        invariant buckets.Valid() && buckets.Contents() == Lru.Get(old(buckets.Contents()), h)
        invariant result == Alive(peers[..i], now)
      {
        AliveConcat(peers[..i], [peers[i]], now);
        assert peers[..i + 1] == peers[..i] + [peers[i]];
        if now - peers[i].value < PEER_TTL {
          result := result + [peers[i].key];
        }
      }
      assert peers[..|peers|] == peers;
    }

    /** Walks the buckets, erasing in place: erasing leaves the iterator on the next bucket. */
    method ExpireStale(now: int)
      requires buckets.Valid()
      modifies buckets
      ensures buckets.Valid() && buckets.Contents() == Expire(old(buckets.Contents()), now)
    {
      hide LinkedUp, View, Expire, FrontIsDead, Walk;
      ghost var all, done := buckets.Contents(), 0;
      ExpireStart(all, now);
      var i := 0;
      var size := buckets.Size();
      while i < size
        invariant buckets.Valid() && 0 <= done <= |all|
        invariant buckets.Contents() == Walk(all, done, now)
        invariant i == |Expire(all[..done], now)| && size == |buckets.Contents()|
        decreases |all| - done
      {
        ExpireStep(all, done, now);
        var peers := buckets.ValueAt(i);
        if peers == [] || now - peers[0].value >= PEER_TTL {
          buckets.EraseAt(i);
          size := buckets.Size();
        } else {
          i := i + 1;
        }
        done := done + 1;
      }
      WalkEnd(all, done, now);
    }
  }

  lemma WalkEnd(all: Buckets, done: nat, now: int)
    requires done <= |all| && |Expire(all[..done], now)| >= |Walk(all, done, now)|
    ensures Walk(all, done, now) == Expire(all, now)
  {
    assert all[..done] == all;
  }
}
