/** The Kademlia k-bucket table (src/dht/routing_table.cpp). */
module Routing {
  import opened NodeIds
  import opened Nearest

  const NUM_BUCKETS: nat := 160
  const NODE_GOOD_TIMEOUT: int := 15 * 60 * 1000  // milliseconds

  predicate IsGood(e: Entry, now: int) {
    now - e.lastSeen < NODE_GOOD_TIMEOUT
  }

  // ---------------------------------------------------------------------------
  // Bucket arithmetic
  // ---------------------------------------------------------------------------

  /** The position of the highest set bit. */
  function Exponent(v: nat): (e: nat)
    requires v > 0
  {
    if v == 1 then 0 else 1 + Exponent(v / 2)
  }

  lemma {:induction false} ExponentSpec(v: nat)
    requires v > 0
    ensures Pow2(Exponent(v)) <= v < Pow2(Exponent(v) + 1)
  {
    if v == 1 {
      assert Pow2(1) == 2 * Pow2(0);
    } else {
      ExponentSpec(v / 2);
    }
  }

  /** The bucket of an id: the exponent of its distance to self, or 160 for self. */
  function BucketOf(self: NodeId, id: NodeId): (b: nat) {
    if Distance(self, id) == 0 then NUM_BUCKETS else Exponent(Distance(self, id))
  }

  lemma SelfDistance(self: NodeId, id: NodeId)
    ensures Distance(self, id) == 0 <==> self == id
    ensures Distance(self, id) < Pow2(160)
  {
    hide Pow2;
    var zero: NodeId := seq(20, _ => 0);
    ZeroValue(zero);
    DistanceZero(self, id);
    ValueBound(XorIds(self, id));
    if Distance(self, id) == 0 {
      ValueInjective(XorIds(self, id), zero);
    } else {
      assert !(XorIds(self, id) == zero);
      assert !IsZero(XorIds(self, id));
    }
  }

  lemma {:induction false} ZeroValue(s: seq<Octet>)
    requires forall i :: 0 <= i < |s| ==> s[i] == 0
    ensures Value(s) == 0
  {
    if s != [] {
      ZeroValue(s[1..]);
    }
  }

  /** Bucket b holds exactly the ids whose numeric XOR distance is in [2^b, 2^(b+1)). */
  lemma BucketRange(self: NodeId, id: NodeId, b: nat)
    requires b < NUM_BUCKETS
    ensures BucketOf(self, id) == b <==> Pow2(b) <= Distance(self, id) < Pow2(b + 1)
    ensures BucketOf(self, id) == NUM_BUCKETS <==> id == self
    ensures BucketOf(self, id) <= NUM_BUCKETS
  {
    hide Pow2, Distance, Exponent;
    SelfDistance(self, id);
    var d := Distance(self, id);
    if d > 0 {
      ExponentSpec(d);
      var e := Exponent(d);
      if Pow2(b) <= d < Pow2(b + 1) {
        ExponentUnique(d, b, e);
      }
      if e >= 160 {
        if e > 160 {
          Pow2Monotone(160, e);
        }
      }
    }
  }

  /** bucket_index: the two nested scans for the highest set bit. */
  method BucketIndex(self: NodeId, id: NodeId) returns (b: nat)
    ensures b == BucketOf(self, id)
  {
    hide Pow2, Value, Exponent;
    var dist := XorLoop(self, id);
    SelfDistance(self, id);
    DistanceZero(self, id);
    if IsZero(dist) { return NUM_BUCKETS; }
    var i := 0;
    while dist[i] == 0
      invariant 0 <= i < 20
      invariant forall j :: 0 <= j < i ==> dist[j] == 0
      invariant exists j :: i <= j < 20 && dist[j] != 0
      decreases 20 - i
    {
      i := i + 1;
    }
    var top: nat := dist[i];
    var bit := 7;
    Pow2Of8();
    while !Bit(top, bit)
      invariant 0 <= bit <= 7
      invariant 0 < top < Pow2(bit + 1)
      decreases bit
    {
      TopBit(top, bit);
      NoBitLeft(top, bit);
      bit := bit - 1;
    }
    TopBit(top, bit);
    LeadingBit(dist, i, bit);
    var msb := i * 8 + (7 - bit);
    b := NUM_BUCKETS - 1 - msb;
    BucketRange(self, id, b);
  }

  lemma NoBitLeft(n: nat, bit: nat)
    requires 0 < n < Pow2(bit)
    ensures bit > 0
  {
  }

  // ---------------------------------------------------------------------------
  // random_id_in_bucket
  // ---------------------------------------------------------------------------

  /** The id still agrees with self above the chosen bit and differs in it. */
  predicate Aimed(self: NodeId, id: seq<Octet>, byte: nat, bit: nat) {
    && byte < 20 && |id| == 20
    && (forall j :: 0 <= j < byte ==> id[j] == self[j])
    && Upper(self[byte], bit + 1) == Upper(id[byte], bit + 1)
    && Bit(id[byte], bit) != Bit(self[byte], bit)
  }

  lemma AimedBucket(self: NodeId, id: NodeId, byte: nat, bit: nat)
    requires bit < 8 && Aimed(self, id, byte, bit)
    ensures BucketOf(self, id) == 8 * (19 - byte) + bit
  {
    hide Pow2, Value, Upper, Bit, Exponent, Xor, BucketOf;
    var d := XorIds(self, id);
    forall j | 0 <= j < byte
      ensures d[j] == 0
    {
      XorZero(self[j], id[j]);
    }
    XorTopBit(self[byte], id[byte], bit);
    assert d[byte] == XorOctet(self[byte], id[byte]) == Xor(self[byte], id[byte]);
    LeadingBit(d, byte, bit);
    BucketRange(self, id, 8 * (19 - byte) + bit);
  }

  function SetBit(id: seq<Octet>, idx: nat, v: bool): (r: seq<Octet>)
    requires |id| == 20 && idx < 160
    ensures |r| == 20
  {
    Pow2Of8();
    WithBitBound(id[idx / 8], 7 - idx % 8, v, 8);
    id[idx / 8 := WithBit(id[idx / 8], 7 - idx % 8, v)]
  }

  lemma SetBitAimed(self: NodeId, id: seq<Octet>, msb: nat, idx: nat, v: bool)
    requires msb < idx < 160 && Aimed(self, id, msb / 8, 7 - msb % 8)
    ensures Aimed(self, SetBit(id, idx, v), msb / 8, 7 - msb % 8)
  {
    hide Upper, Bit, WithBit;
    if idx / 8 == msb / 8 {
      WithBitEffect(id[idx / 8], 7 - idx % 8, v, 7 - msb % 8);
      WithBitEffect(id[idx / 8], 7 - idx % 8, v, 7 - msb % 8 + 1);
    }
  }

  lemma FlipAims(self: NodeId, msb: nat)
    requires msb < 160
    ensures Aimed(self, SetBit(self, msb, !Bit(self[msb / 8], 7 - msb % 8)), msb / 8, 7 - msb % 8)
  {
    hide Upper, Bit, WithBit;
    WithBitEffect(self[msb / 8], 7 - msb % 8, !Bit(self[msb / 8], 7 - msb % 8), 7 - msb % 8 + 1);
  }

  /** For every bucket and every outcome of the coin flips the id lands in that bucket; a bucket
      number past the end is taken as the last bucket. */
  method RandomIdInBucket(self: NodeId, bucket: nat, coin: nat -> bool) returns (id: NodeId)
    ensures BucketOf(self, id) == if bucket >= NUM_BUCKETS then NUM_BUCKETS - 1 else bucket
  {
    hide Upper, Bit, WithBit, SetBit, BucketOf, Aimed;
    var b := if bucket >= NUM_BUCKETS then NUM_BUCKETS - 1 else bucket;
    var msb := NUM_BUCKETS - 1 - b;
    FlipAims(self, msb);
    var bytes := SetBit(self, msb, !Bit(self[msb / 8], 7 - msb % 8));
    for idx := msb + 1 to NUM_BUCKETS
      invariant |bytes| == 20 && Aimed(self, bytes, msb / 8, 7 - msb % 8)
    {
      SetBitAimed(self, bytes, msb, idx, coin(idx));
      bytes := SetBit(bytes, idx, coin(idx));
    }
    id := bytes;
    AimedBucket(self, id, msb / 8, 7 - msb % 8);
  }

  // ---------------------------------------------------------------------------
  // One bucket
  // ---------------------------------------------------------------------------

  /** find_in_bucket: the first entry with the id, or |bucket|. */
  function Find(bucket: seq<Entry>, id: NodeId): (i: nat)
    ensures i <= |bucket|
    ensures i < |bucket| ==> bucket[i].id == id
    ensures forall j :: 0 <= j < i ==> bucket[j].id != id
  {
    if bucket == [] || bucket[0].id == id then 0 else 1 + Find(bucket[1..], id)
  }

  function RemoveAt(bucket: seq<Entry>, i: nat): (r: seq<Entry>)
    requires i < |bucket|
  {
    bucket[..i] + bucket[i + 1..]
  }

  /** The entry heard from longest ago; the first of them on a tie. */
  function Oldest(bucket: seq<Entry>): (i: nat)
    requires bucket != []
    ensures i < |bucket|
    ensures forall j :: 0 <= j < |bucket| ==> bucket[i].lastSeen <= bucket[j].lastSeen
    ensures forall j :: 0 <= j < i ==> bucket[i].lastSeen < bucket[j].lastSeen
  {
    if |bucket| == 1 then 0
    else
      var n := |bucket| - 1;
      var i := Oldest(bucket[..n]);
      if bucket[n].lastSeen < bucket[i].lastSeen then n else i
  }

  /** add, within the bucket of the entry. */
  function AddToBucket(bucket: seq<Entry>, e: Entry, now: int): (r: seq<Entry>) {
    var i := Find(bucket, e.id);
    if i < |bucket| then RemoveAt(bucket, i) + [e]
    else if |bucket| < K then bucket + [e]
    else if !IsGood(bucket[Oldest(bucket)], now) then bucket[Oldest(bucket) := e]
    else bucket
  }

  /** A full bucket gives up only an entry silent for 15 minutes, the one silent longest, and turns
      the newcomer away only when all its entries are good. */
  lemma FullBucketPolicy(bucket: seq<Entry>, e: Entry, now: int)
    requires |bucket| >= K && Find(bucket, e.id) == |bucket|
    ensures AddToBucket(bucket, e, now) == bucket <==>
            (forall i :: 0 <= i < |bucket| ==> IsGood(bucket[i], now))
    ensures AddToBucket(bucket, e, now) != bucket ==>
              exists i :: && 0 <= i < |bucket| && AddToBucket(bucket, e, now) == bucket[i := e]
                          && now - bucket[i].lastSeen >= NODE_GOOD_TIMEOUT
                          && forall j :: 0 <= j < |bucket| ==> bucket[i].lastSeen <= bucket[j].lastSeen
  {
    var i := Oldest(bucket);
    if !IsGood(bucket[i], now) {
      assert AddToBucket(bucket, e, now)[i].id != bucket[i].id;
    }
  }

  predicate DistinctIds(bucket: seq<Entry>) {
    forall i, j :: 0 <= i < j < |bucket| ==> bucket[i].id != bucket[j].id
  }

  predicate Belongs(self: NodeId, b: nat, e: Entry) {
    e.id != self && !IsZero(e.id) && BucketOf(self, e.id) == b
  }

  predicate BucketOk(self: NodeId, b: nat, bucket: seq<Entry>) {
    && |bucket| <= K
    && DistinctIds(bucket)
    && forall i :: 0 <= i < |bucket| ==> Belongs(self, b, bucket[i])
  }

  lemma RemoveAtOk(self: NodeId, b: nat, bucket: seq<Entry>, i: nat)
    requires BucketOk(self, b, bucket) && i < |bucket|
    ensures BucketOk(self, b, RemoveAt(bucket, i))
    ensures forall e :: e in RemoveAt(bucket, i) ==> e in bucket && e.id != bucket[i].id
  {
    hide Belongs;
    var r := RemoveAt(bucket, i);
    forall j | 0 <= j < |r|
      ensures r[j] == bucket[if j < i then j else j + 1]
    {
    }
  }

  lemma AddToBucketOk(self: NodeId, b: nat, bucket: seq<Entry>, e: Entry, now: int)
    requires BucketOk(self, b, bucket) && Belongs(self, b, e)
    ensures BucketOk(self, b, AddToBucket(bucket, e, now))
  {
    hide Belongs, IsGood;
    var i := Find(bucket, e.id);
    if i < |bucket| {
      RemoveAtOk(self, b, bucket, i);
      var r := RemoveAt(bucket, i);
      assert forall j :: 0 <= j < |r| ==> r[j] in r;
    }
  }

  // ---------------------------------------------------------------------------
  // The table as a value, and every run of operations on it
  // ---------------------------------------------------------------------------

  type Table = seq<seq<Entry>>

  datatype Op = Add(entry: Entry, now: int) | Remove(id: NodeId)

  function Apply(self: NodeId, table: Table, op: Op): (r: Table) {
    match op
    case Add(e, now) =>
      if e.id == self || IsZero(e.id) || BucketOf(self, e.id) >= |table| then table
      else table[BucketOf(self, e.id) := AddToBucket(table[BucketOf(self, e.id)], e, now)]
    case Remove(id) =>
      var b := BucketOf(self, id);
      if b >= |table| || Find(table[b], id) == |table[b]| then table
      else table[b := RemoveAt(table[b], Find(table[b], id))]
  }

  function Run(self: NodeId, ops: seq<Op>): (table: Table) {
    if ops == [] then seq(NUM_BUCKETS, _ => [])
    else Apply(self, Run(self, ops[..|ops| - 1]), ops[|ops| - 1])
  }

  predicate TableOk(self: NodeId, table: Table) {
    && |table| == NUM_BUCKETS
    && forall b :: 0 <= b < |table| ==> BucketOk(self, b, table[b])
  }

  lemma ApplyOk(self: NodeId, table: Table, op: Op)
    requires TableOk(self, table)
    ensures TableOk(self, Apply(self, table, op))
  {
    hide BucketOk, BucketOf, IsZero, AddToBucket, RemoveAt;
    match op
    case Add(e, now) =>
      var b := BucketOf(self, e.id);
      if e.id != self && !IsZero(e.id) && b < |table| {
        AddToBucketOk(self, b, table[b], e, now);
      }
    case Remove(id) =>
      var b := BucketOf(self, id);
      if b < |table| && Find(table[b], id) < |table[b]| {
        RemoveAtOk(self, b, table[b], Find(table[b], id));
      }
  }

  lemma {:induction false} RunOk(self: NodeId, ops: seq<Op>)
    ensures TableOk(self, Run(self, ops))
  {
    hide Apply;
    if ops != [] {
      RunOk(self, ops[..|ops| - 1]);
      ApplyOk(self, Run(self, ops[..|ops| - 1]), ops[|ops| - 1]);
    }
  }

  /** all_unlocked: the entries of every bucket in turn. */
  function All(table: Table): (out: seq<Entry>) {
    if table == [] then [] else All(table[..|table| - 1]) + table[|table| - 1]
  }

  lemma {:induction false} AllMembers(table: Table, e: Entry)
    ensures e in All(table) <==> exists b :: 0 <= b < |table| && e in table[b]
  {
    if table != [] {
      AllMembers(table[..|table| - 1], e);
    }
  }

  lemma {:induction false} AllDistinct(self: NodeId, table: Table)
    requires forall b :: 0 <= b < |table| ==> BucketOk(self, b, table[b])
    ensures DistinctIds(All(table))
  {
    if table != [] {
      var n := |table| - 1;
      var front := table[..n];
      AllDistinct(self, front);
      hide IsZero, BucketOf;
      forall i, j | 0 <= i < |All(front)| && 0 <= j < |table[n]|
        ensures All(front)[i].id != table[n][j].id
      {
        AllMembers(front, All(front)[i]);
        assert All(front)[i] in All(front);
        var b :| 0 <= b < |front| && All(front)[i] in front[b];
        var k :| 0 <= k < |front[b]| && front[b][k] == All(front)[i];
        assert Belongs(self, b, front[b][k]) && Belongs(self, n, table[n][j]);
      }
    }
  }

  /** In every reachable table an entry of bucket b is at a distance in [2^b, 2^(b+1)), no id occurs
      twice, self and the zero id never occur, and no bucket holds more than eight. */
  lemma ReachableTable(self: NodeId, ops: seq<Op>)
    ensures var table := Run(self, ops);
            && |table| == NUM_BUCKETS
            && DistinctIds(All(table))
            && forall b, i :: 0 <= b < NUM_BUCKETS && 0 <= i < |table[b]| ==>
                 && |table[b]| <= K
                 && table[b][i].id != self && !IsZero(table[b][i].id)
                 && Pow2(b) <= Distance(self, table[b][i].id) < Pow2(b + 1)
  {
    hide Run, All, BucketOf, Distance, Pow2, IsZero;
    RunOk(self, ops);
    var table := Run(self, ops);
    AllDistinct(self, table);
    forall b, i | 0 <= b < NUM_BUCKETS && 0 <= i < |table[b]|
      ensures Belongs(self, b, table[b][i]) && Pow2(b) <= Distance(self, table[b][i].id) < Pow2(b + 1)
    {
      BucketRange(self, table[b][i].id, b);
    }
  }

  /** closest: sort everything by distance and keep k. */
  function Closest(sort: (NodeId, seq<Entry>) -> seq<Entry>, table: Table, target: NodeId, k: nat): (r: seq<Entry>) {
    Take(k, sort(target, All(table)))
  }

  /** closest returns, nearest first, min(k, size) entries such that no omitted entry is nearer than
      a returned one; and in a reachable table that list is unique, however the sort breaks ties. */
  lemma ClosestIsNearest(sort: (NodeId, seq<Entry>) -> seq<Entry>, self: NodeId, ops: seq<Op>, target: NodeId, k: nat)
    requires SortsByDistance(sort)
    ensures var table := Run(self, ops);
            && NearestOf(target, k, multiset(All(table)), Closest(sort, table, target, k))
            && forall r :: NearestOf(target, k, multiset(All(table)), r) ==> r == Closest(sort, table, target, k)
  {
    hide Run, All, NearestOf;
    var table := Run(self, ops);
    RunOk(self, ops);
    AllDistinct(self, table);
    SortedPrefix(target, k, sort(target, All(table)));
    forall r | NearestOf(target, k, multiset(All(table)), r)
      ensures r == Closest(sort, table, target, k)
    {
      NearestUnique(target, k, All(table), r, Closest(sort, table, target, k));
    }
  }

  lemma NearestUnique(target: NodeId, k: nat, all: seq<Entry>, a: seq<Entry>, b: seq<Entry>)
    requires DistinctIds(all) && NearestOf(target, k, multiset(all), a) && NearestOf(target, k, multiset(all), b)
    ensures a == b
  {
    hide Distance;
    NearestDistances(target, k, multiset(all), a, b);
    forall i | 0 <= i < |a|
      ensures a[i] == b[i]
    {
      assert a[i] in multiset(a) && b[i] in multiset(b);
      assert a[i] in all && b[i] in all;
      DistanceInjective(target, a[i].id, b[i].id);
    }
  }

  // ---------------------------------------------------------------------------
  // The table as the source keeps it: fixed arrays changed in place
  // ---------------------------------------------------------------------------

  lemma ShiftedLeft(before: seq<Entry>, after: seq<Entry>, idx: nat)
    requires idx < |before| == |after| + 1
    requires forall j :: 0 <= j < idx ==> after[j] == before[j]
    requires forall j :: idx <= j < |after| ==> after[j] == before[j + 1]
    ensures after == RemoveAt(before, idx)
  {
  }

  /** Move everything after idx one place to the left. */
  method CloseGap(a: array<Entry>, size: nat, idx: nat)
    requires idx < size <= a.Length
    modifies a
    ensures a[..size - 1] == RemoveAt(old(a[..size]), idx)
  {
    hide RemoveAt;
    ghost var before := a[..size];
    var j := idx + 1;
    while j < size
      invariant idx < j <= size
      invariant forall i :: 0 <= i < idx ==> a[i] == before[i]
      invariant forall i :: idx <= i < j - 1 ==> a[i] == before[i + 1]
      invariant forall i :: j <= i < size ==> a[i] == before[i]
    {
      a[j - 1] := a[j];
      j := j + 1;
    }
    ShiftedLeft(before, a[..size - 1], idx);
  }

  /** touch_bucket_entry: overwrite the entry and shift it to the end. */
  method Touch(a: array<Entry>, size: nat, idx: nat, e: Entry)
    requires idx < size <= a.Length
    modifies a
    ensures a[..size] == RemoveAt(old(a[..size]), idx) + [e]
  {
    hide RemoveAt;
    ghost var before := a[..size];
    a[idx] := e;
    if idx + 1 < size {
      var updated := a[idx];
      RemoveIgnores(before, a[..size], idx);
      CloseGap(a, size, idx);
      a[size - 1] := updated;
    } else {
      ShiftedLeft(before, a[..size - 1], idx);
    }
    assert a[..size] == a[..size - 1] + [e];
  }

  lemma RemoveIgnores(before: seq<Entry>, after: seq<Entry>, idx: nat)
    requires idx < |before| == |after|
    requires forall j :: 0 <= j < |before| && j != idx ==> after[j] == before[j]
    ensures RemoveAt(after, idx) == RemoveAt(before, idx)
  {
  }

  method FindInBucket(a: array<Entry>, size: nat, id: NodeId) returns (i: nat)
    requires size <= a.Length
    ensures i == Find(a[..size], id)
  {
    i := 0;
    while i < size && a[i].id != id
      invariant i <= size
      invariant forall j :: 0 <= j < i ==> a[j].id != id
    {
      i := i + 1;
    }
    FindUnique(a[..size], id, i);
  }

  lemma {:induction false} FindUnique(bucket: seq<Entry>, id: NodeId, i: nat)
    requires i <= |bucket| && (i < |bucket| ==> bucket[i].id == id)
    requires forall j :: 0 <= j < i ==> bucket[j].id != id
    ensures Find(bucket, id) == i
  {
  }

  /** The scan for the replacement candidate. */
  method FindOldest(a: array<Entry>, size: nat) returns (replace: nat)
    requires 0 < size <= a.Length
    ensures replace == Oldest(a[..size])
  {
    replace := 0;
    var oldest := a[0].lastSeen;
    for i := 1 to size
      invariant replace < i && oldest == a[replace].lastSeen
      invariant replace == Oldest(a[..i])
    {
      assert a[..i + 1][..i] == a[..i];
      if a[i].lastSeen < oldest {
        oldest := a[i].lastSeen;
        replace := i;
      }
    }
  }

  /** add, once the bucket is known: refresh, append, replace or drop. */
  method AddInRow(row: array<Entry>, size: nat, e: Entry, now: int) returns (newSize: nat)
    requires size <= K == row.Length
    modifies row
    ensures newSize <= K
    ensures row[..newSize] == AddToBucket(old(row[..size]), e, now)
  {
    hide IsGood, RemoveAt, Oldest;
    ghost var before := row[..size];
    newSize := size;
    var i := FindInBucket(row, size, e.id);
    if i < size {
      row[i] := e;
      RemoveIgnores(before, row[..size], i);
      Touch(row, size, i, e);
    } else if size < K {
      row[size] := e;
      newSize := size + 1;
      assert row[..newSize] == before + [e];
    } else {
      var replace := FindOldest(row, size);
      if !IsGood(row[replace], now) {
        row[replace] := e;
        assert row[..size] == before[replace := e];
      }
    }
  }

  class RoutingTable {
    const self: NodeId
    const buckets: seq<array<Entry>>
    var sizes: seq<nat>
    var received: seq<nat>

    ghost predicate Valid()
      reads this
    {
      && |buckets| == |sizes| == |received| == NUM_BUCKETS
      && (forall b :: 0 <= b < NUM_BUCKETS ==> buckets[b].Length == K && sizes[b] <= K)
      && (forall b, d :: 0 <= b < d < NUM_BUCKETS ==> buckets[b] != buckets[d])
    }

    ghost function Contents(): (table: Table)
      requires Valid()
      reads this, buckets
    {
      seq(NUM_BUCKETS, b requires 0 <= b < NUM_BUCKETS && Valid() reads this, buckets => buckets[b][..sizes[b]])
    }

    /** Only row b changed. */
    twostate lemma OneRow(b: nat)
      requires old(Valid()) && Valid() && b < NUM_BUCKETS
      requires forall d :: 0 <= d < NUM_BUCKETS && d != b ==>
                 sizes[d] == old(sizes[d]) && buckets[d][..] == old(buckets[d][..])
      ensures Contents() == old(Contents())[b := buckets[b][..sizes[b]]]
    {
      forall d | 0 <= d < NUM_BUCKETS && d != b
        ensures Contents()[d] == old(Contents())[d]
      {
        assert buckets[d][..sizes[d]] == buckets[d][..][..sizes[d]];
        assert old(buckets[d][..sizes[d]]) == old(buckets[d][..])[..old(sizes[d])];
      }
    }

    constructor (self: NodeId, blank: Entry)
      ensures Valid() && this.self == self && fresh(buckets)
      ensures Contents() == seq(NUM_BUCKETS, _ => [])
    {
      var rows: seq<array<Entry>> := [];
      for b := 0 to NUM_BUCKETS
        invariant |rows| == b
        invariant forall i :: 0 <= i < b ==> rows[i].Length == K && fresh(rows[i])
        invariant forall i, j :: 0 <= i < j < b ==> rows[i] != rows[j]
      {
        var row := new Entry[K](_ => blank);
        rows := rows + [row];
      }
      this.self := self;
      buckets := rows;
      sizes := seq(NUM_BUCKETS, _ => 0);
      received := seq(NUM_BUCKETS, _ => 0);
    }

    /** add: refuses self and the zero id, refreshes a known node, appends, replaces or drops. */
    method AddEntry(e: Entry, now: int, countAsReceived: bool)
      requires Valid()
      modifies this, buckets
      ensures Valid()
      ensures Contents() == Apply(self, old(Contents()), Add(e, now))
      ensures received == if countAsReceived && e.id != self && !IsZero(e.id) && BucketOf(self, e.id) < NUM_BUCKETS
                          then old(received)[BucketOf(self, e.id) := old(received)[BucketOf(self, e.id)] + 1]
                          else old(received)
    {
      hide BucketOf, IsZero, AddToBucket;
      if e.id == self || IsZero(e.id) { return; }
      var b := BucketIndex(self, e.id);
      if b >= NUM_BUCKETS { return; }
      if countAsReceived {
        received := received[b := received[b] + 1];
      }
      var size := AddInRow(buckets[b], sizes[b], e, now);
      sizes := sizes[b := size];
      OneRow(b);
    }

    /** remove: take the entry out and close the gap. */
    method RemoveId(id: NodeId)
      requires Valid()
      modifies this`sizes, buckets
      ensures Valid()
      ensures Contents() == Apply(self, old(Contents()), Remove(id))
    {
      hide BucketOf, RemoveAt;
      var b := BucketIndex(self, id);
      if b >= NUM_BUCKETS { return; }
      var row, size := buckets[b], sizes[b];
      ghost var before := row[..size];
      var i := FindInBucket(row, size, id);
      if i < size {
        CloseGap(row, size, i);
        sizes := sizes[b := size - 1];
        OneRow(b);
      }
    }

    /** all and closest. */
    method ClosestTo(sort: (NodeId, seq<Entry>) -> seq<Entry>, target: NodeId, k: nat) returns (r: seq<Entry>)
      requires Valid()
      ensures r == Closest(sort, Contents(), target, k)
    {
      var out: seq<Entry> := [];
      for b := 0 to NUM_BUCKETS
        invariant out == All(Contents()[..b])
      {
        assert Contents()[..b + 1][..b] == Contents()[..b];
        out := out + buckets[b][..sizes[b]];
      }
      assert Contents()[..NUM_BUCKETS] == Contents();
      var sorted := sort(target, out);
      r := if |sorted| > k then sorted[..k] else sorted;
    }
  }
}
