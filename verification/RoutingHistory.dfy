/** What a bucket holds, told from the adds and removes alone (src/dht/routing_table.cpp:166-252). */
module RoutingHistory {
  import opened Common
  import opened NodeIds
  import opened Nearest
  import opened Routing

  // ---------------------------------------------------------------------------
  // The history of a bucket
  // ---------------------------------------------------------------------------

  function IdOf(op: Op): (id: NodeId) {
    if op.Add? then op.entry.id else op.id
  }

  /** Nothing after operation i is about the same id. */
  ghost predicate LastWord(ops: seq<Op>, i: nat) {
    forall j :: i < j < |ops| ==> i < |ops| && IdOf(ops[j]) != IdOf(ops[i])
  }

  /** The entries of the adds to bucket b among the first n operations that have the last word about
      their id, in order. */
  ghost function Survivors(self: NodeId, b: nat, ops: seq<Op>, n: nat): (r: seq<Entry>)
    requires n <= |ops|
  {
    if n == 0 then []
    else
      Survivors(self, b, ops, n - 1) +
      if ops[n - 1].Add? && Belongs(self, b, ops[n - 1].entry) && LastWord(ops, n - 1) then [ops[n - 1].entry] else []
  }

  /** The ids added to the bucket and not removed since, each with the entry of its latest add, in order
      of latest add. */
  ghost function Added(self: NodeId, b: nat, ops: seq<Op>): (r: seq<Entry>) {
    Survivors(self, b, ops, |ops|)
  }

  function WithoutId(bucket: seq<Entry>, id: NodeId): (r: seq<Entry>) {
    if bucket == [] then []
    else
      var last := bucket[|bucket| - 1];
      WithoutId(bucket[..|bucket| - 1], id) + if last.id == id then [] else [last]
  }

  lemma WithoutIdSnoc(bucket: seq<Entry>, e: Entry, id: NodeId)
    ensures WithoutId(bucket + [e], id) == WithoutId(bucket, id) + if e.id == id then [] else [e]
  {
    assert (bucket + [e])[..|bucket|] == bucket;
  }

  lemma {:induction false} WithoutIdSpec(bucket: seq<Entry>, id: NodeId)
    ensures forall e :: e in WithoutId(bucket, id) <==> e in bucket && e.id != id
  {
    if bucket != [] {
      var n := |bucket| - 1;
      WithoutIdSpec(bucket[..n], id);
      assert bucket == bucket[..n] + [bucket[n]];
    }
  }

  lemma DistinctSnoc(bucket: seq<Entry>, e: Entry)
    requires DistinctIds(bucket) && forall x :: x in bucket ==> x.id != e.id
    ensures DistinctIds(bucket + [e])
  {
    forall i, j | 0 <= i < j < |bucket + [e]|
      ensures (bucket + [e])[i].id != (bucket + [e])[j].id
    {
      assert bucket[i] in bucket;
    }
  }

  lemma DistinctInit(bucket: seq<Entry>)
    requires DistinctIds(bucket) && bucket != []
    ensures DistinctIds(bucket[..|bucket| - 1])
    ensures forall x :: x in bucket[..|bucket| - 1] ==> x.id != bucket[|bucket| - 1].id
  {
  }

  lemma {:induction false} WithoutIdDistinct(bucket: seq<Entry>, id: NodeId)
    requires DistinctIds(bucket)
    ensures DistinctIds(WithoutId(bucket, id))
  {
    if bucket != [] {
      var n := |bucket| - 1;
      DistinctInit(bucket);
      WithoutIdDistinct(bucket[..n], id);
      WithoutIdSpec(bucket[..n], id);
      var r := WithoutId(bucket[..n], id);
      assert WithoutId(bucket, id) == if bucket[n].id == id then r else r + [bucket[n]];
      hide DistinctIds, WithoutId;
      if bucket[n].id != id {
        DistinctSnoc(r, bucket[n]);
      }
    }
  }

  lemma {:induction false} WithoutMissing(bucket: seq<Entry>, id: NodeId)
    requires forall e :: e in bucket ==> e.id != id
    ensures WithoutId(bucket, id) == bucket
  {
    if bucket != [] {
      var n := |bucket| - 1;
      assert bucket[n].id != id by { assert bucket[n] in bucket; }
      var r := WithoutId(bucket[..n], id);
      assert WithoutId(bucket, id) == r + [bucket[n]];
      hide WithoutId;
      SplitEnd(bucket);
      WithoutMissing(bucket[..n], id);
    }
  }

  lemma {:induction false} WithoutConcat(a: seq<Entry>, b: seq<Entry>, id: NodeId)
    ensures WithoutId(a + b, id) == WithoutId(a, id) + WithoutId(b, id)
  {
    if b == [] {
      assert a + b == a;
    } else {
      var n := |b| - 1;
      WithoutConcat(a, b[..n], id);
      assert (a + b)[..|a + b| - 1] == a + b[..n];
    }
  }

  /** Closing the gap of the one entry with the id. */
  lemma WithoutAt(bucket: seq<Entry>, i: nat)
    requires DistinctIds(bucket) && i < |bucket|
    ensures WithoutId(bucket, bucket[i].id) == RemoveAt(bucket, i)
  {
    var id := bucket[i].id;
    var a, c := bucket[..i], bucket[i + 1..];
    WithoutIdSnoc(a, bucket[i], id);
    OnlyThere(bucket, i);
    hide DistinctIds, WithoutId;
    SplitAt(bucket, i);
    WithoutConcat(a + [bucket[i]], c, id);
    WithoutMissing(a, id);
    WithoutMissing(c, id);
    assert a + [] == a;
  }

  lemma OnlyThere(bucket: seq<Entry>, i: nat)
    requires DistinctIds(bucket) && i < |bucket|
    ensures forall e :: e in bucket[..i] ==> e.id != bucket[i].id
    ensures forall e :: e in bucket[i + 1..] ==> e.id != bucket[i].id
  {
  }

  lemma LastWordStep(ops: seq<Op>, op: Op, i: nat)
    requires i < |ops|
    ensures LastWord(ops + [op], i) <==> LastWord(ops, i) && IdOf(op) != IdOf(ops[i])
  {
    var all := ops + [op];
    assert all[|ops|] == op && all[i] == ops[i];
    if LastWord(all, i) {
      forall j | i < j < |ops|
        ensures IdOf(ops[j]) != IdOf(ops[i])
      {
        assert all[j] == ops[j];
      }
    }
  }

  lemma {:induction false} SurvivorsStep(self: NodeId, b: nat, ops: seq<Op>, op: Op, n: nat)
    requires n <= |ops|
    ensures Survivors(self, b, ops + [op], n) == WithoutId(Survivors(self, b, ops, n), IdOf(op))
  {
    hide Belongs, LastWord;
    if n > 0 {
      SurvivorsStep(self, b, ops, op, n - 1);
      LastWordStep(ops, op, n - 1);
      var x, all := ops[n - 1], ops + [op];
      assert all[n - 1] == x;
      var was, id := Survivors(self, b, ops, n - 1), IdOf(op);
      var stays := x.Add? && Belongs(self, b, x.entry) && LastWord(ops, n - 1);
      assert Survivors(self, b, ops, n) == was + if stays then [x.entry] else [];
      assert Survivors(self, b, all, n)
          == Survivors(self, b, all, n - 1) + if stays && id != IdOf(x) then [x.entry] else [];
      hide Survivors, WithoutId;
      if stays {
        WithoutIdSnoc(was, x.entry, id);
      } else {
        assert was + [] == was && WithoutId(was, id) + [] == WithoutId(was, id);
      }
    }
  }

  /** One more operation: its id leaves, and comes back at the end if it is an add to this bucket. */
  lemma AddedStep(self: NodeId, b: nat, ops: seq<Op>, op: Op)
    ensures Added(self, b, ops + [op])
            == WithoutId(Added(self, b, ops), IdOf(op))
               + if op.Add? && Belongs(self, b, op.entry) then [op.entry] else []
  {
    hide Belongs;
    SurvivorsStep(self, b, ops, op, |ops|);
    assert LastWord(ops + [op], |ops|);
  }

  lemma {:induction false} AddedOk(self: NodeId, b: nat, ops: seq<Op>)
    ensures DistinctIds(Added(self, b, ops))
    ensures forall e :: e in Added(self, b, ops) ==> Belongs(self, b, e)
  {
    hide Belongs;
    if ops != [] {
      var before, op := ops[..|ops| - 1], ops[|ops| - 1];
      assert ops == before + [op];
      AddedOk(self, b, before);
      AddedStep(self, b, before, op);
      var kept := WithoutId(Added(self, b, before), IdOf(op));
      WithoutIdSpec(Added(self, b, before), IdOf(op));
      WithoutIdDistinct(Added(self, b, before), IdOf(op));
      hide Survivors, WithoutId, DistinctIds;
      if op.Add? && Belongs(self, b, op.entry) {
        DistinctSnoc(kept, op.entry);
      } else {
        assert kept + [] == kept;
      }
    }
  }

  // ---------------------------------------------------------------------------
  // A bucket that was never overfull
  // ---------------------------------------------------------------------------

  /** What an operation does to its own bucket, when there is room. */
  lemma BucketStep(self: NodeId, bucket: seq<Entry>, b: nat, e: Entry, now: int)
    requires BucketOk(self, b, bucket) && (|bucket| < 8 || Find(bucket, e.id) < |bucket|)
    ensures AddToBucket(bucket, e, now) == WithoutId(bucket, e.id) + [e]
  {
    hide Belongs, WithoutId;
    FoundOrNot(bucket, e.id);
  }

  lemma FoundOrNot(bucket: seq<Entry>, id: NodeId)
    requires DistinctIds(bucket)
    ensures Find(bucket, id) < |bucket| ==> WithoutId(bucket, id) == RemoveAt(bucket, Find(bucket, id))
    ensures Find(bucket, id) == |bucket| ==> WithoutId(bucket, id) == bucket
  {
    var i := Find(bucket, id);
    hide WithoutId, DistinctIds;
    if i < |bucket| {
      WithoutAt(bucket, i);
    } else {
      WithoutMissing(bucket, id);
    }
  }

  /** An id of another bucket does not occur in this one. */
  lemma Elsewhere(self: NodeId, b: nat, bucket: seq<Entry>, id: NodeId)
    requires BucketOk(self, b, bucket) && (id == self || IsZero(id) || BucketOf(self, id) != b)
    ensures WithoutId(bucket, id) == bucket
  {
    hide BucketOf, IsZero, WithoutId;
    WithoutMissing(bucket, id);
  }

  lemma StepInBucket(self: NodeId, table: Table, op: Op, b: nat)
    requires TableOk(self, table) && b < NUM_BUCKETS
    requires op.Add? && Belongs(self, b, op.entry) ==> |table[b]| < 8 || Find(table[b], op.entry.id) < |table[b]|
    ensures |Apply(self, table, op)| == NUM_BUCKETS
    ensures Apply(self, table, op)[b]
            == WithoutId(table[b], IdOf(op)) + if op.Add? && Belongs(self, b, op.entry) then [op.entry] else []
  {
    hide BucketOf, IsZero, WithoutId, AddToBucket, RemoveAt, BucketOk;
    var bucket, id := table[b], IdOf(op);
    assert BucketOk(self, b, bucket);
    assert WithoutId(bucket, id) + [] == WithoutId(bucket, id);
    assert DistinctIds(bucket) by { OkIsDistinct(self, b, bucket); }
    hide DistinctIds;
    if id == self || IsZero(id) || BucketOf(self, id) != b {
      Elsewhere(self, b, bucket, id);
    } else {
      FoundOrNot(bucket, id);
      if op.Add? {
        BucketStep(self, bucket, b, op.entry, op.now);
      }
    }
    if op.Remove? && (id == self || IsZero(id)) && BucketOf(self, id) == b {
      FoundOrNot(bucket, id);
    }
  }

  lemma OkIsDistinct(self: NodeId, b: nat, bucket: seq<Entry>)
    requires BucketOk(self, b, bucket)
    ensures DistinctIds(bucket)
  {
  }

  /** As long as no more than eight ids are in it at a time, a bucket holds exactly what was added and
      not removed since, each id with the entry of its latest add, in order of latest add. */
  lemma {:induction false} RoomyBucket(self: NodeId, ops: seq<Op>, b: nat)
    requires b < NUM_BUCKETS && forall n :: 0 <= n <= |ops| ==> |Added(self, b, ops[..n])| <= 8
    ensures |Run(self, ops)| == NUM_BUCKETS && Run(self, ops)[b] == Added(self, b, ops)
  {
    assert ops[..|ops|] == ops;
    if ops != [] {
      var before, op := ops[..|ops| - 1], ops[|ops| - 1];
      assert ops == before + [op];
      forall n | 0 <= n <= |before|
        ensures |Added(self, b, before[..n])| <= 8
      {
        assert before[..n] == ops[..n];
      }
      RoomyBucket(self, before, b);
      RunOk(self, before);
      AddedStep(self, b, before, op);
      var bucket := Run(self, before)[b];
      if Find(bucket, IdOf(op)) == |bucket| {
        WithoutMissing(bucket, IdOf(op));
      }
      hide Added, Apply, Belongs, WithoutId;
      StepInBucket(self, Run(self, before), op, b);
    }
  }

  /** The ids ever added to bucket b. */
  function EverAdded(self: NodeId, b: nat, ops: seq<Op>): (ids: set<NodeId>) {
    set op | op in ops && op.Add? && Belongs(self, b, op.entry) :: op.entry.id
  }

  lemma {:induction false} FewIds(bucket: seq<Entry>, ids: set<NodeId>)
    requires DistinctIds(bucket) && forall e :: e in bucket ==> e.id in ids
    ensures |bucket| <= |ids|
  {
    if bucket != [] {
      var n := |bucket| - 1;
      assert bucket[n] in bucket;
      forall e | e in bucket[..n]
        ensures e.id in ids - {bucket[n].id}
      {
        var i :| 0 <= i < n && bucket[i] == e;
      }
      FewIds(bucket[..n], ids - {bucket[n].id});
    }
  }

  lemma {:induction false} AddedAreEver(self: NodeId, b: nat, ops: seq<Op>, n: nat, e: Entry)
    requires n <= |ops| && e in Survivors(self, b, ops, n)
    ensures e.id in EverAdded(self, b, ops)
  {
    hide Belongs, LastWord;
    if e !in Survivors(self, b, ops, n - 1) {
      assert ops[n - 1] in ops;
    } else {
      AddedAreEver(self, b, ops, n - 1, e);
    }
  }

  /** In particular while at most eight different ids of the bucket have ever been added. */
  lemma EightIdsFit(self: NodeId, ops: seq<Op>, b: nat)
    requires b < NUM_BUCKETS && |EverAdded(self, b, ops)| <= 8
    ensures |Run(self, ops)| == NUM_BUCKETS && Run(self, ops)[b] == Added(self, b, ops)
  {
    forall n | 0 <= n <= |ops|
      ensures |Added(self, b, ops[..n])| <= 8
    {
      AddedOk(self, b, ops[..n]);
      forall e | e in Added(self, b, ops[..n])
        ensures e.id in EverAdded(self, b, ops)
      {
        AddedAreEver(self, b, ops[..n], n, e);
        var op :| op in ops[..n] && op.Add? && Belongs(self, b, op.entry) && op.entry.id == e.id;
        assert op in ops;
      }
      FewIds(Added(self, b, ops[..n]), EverAdded(self, b, ops));
    }
    hide Run, Added;
    RoomyBucket(self, ops, b);
  }

  // ---------------------------------------------------------------------------
  // How entries come and go, in any reachable table
  // ---------------------------------------------------------------------------

  /** The newcomer of a full bucket replaces this entry: nobody was heard from longer ago, and it has been
      silent for 15 minutes. */
  predicate Replaces(bucket: seq<Entry>, op: Op, e: Entry) {
    && op.Add? && |bucket| >= 8 && (forall x :: x in bucket ==> x.id != op.entry.id)
    && op.now - e.lastSeen >= 15 * 60 * 1000 && (forall x :: x in bucket ==> e.lastSeen <= x.lastSeen)
  }

  lemma UpdateKeeps(bucket: seq<Entry>, o: nat, x: Entry, i: nat)
    requires o < |bucket| && i < |bucket| && i != o
    ensures bucket[i] in bucket[o := x]
  {
    assert bucket[o := x][i] == bucket[i];
  }

  lemma MemberAt(bucket: seq<Entry>, e: Entry) returns (i: nat)
    requires e in bucket
    ensures i < |bucket| && bucket[i] == e
  {
    i :| 0 <= i < |bucket| && bucket[i] == e;
  }

  /** An entry leaves only when its id is removed, refreshed, or given up by a full bucket. */
  lemma LeavesOnlyBy(self: NodeId, table: Table, op: Op, b: nat, e: Entry)
    requires TableOk(self, table) && b < NUM_BUCKETS && e in table[b] && e !in Apply(self, table, op)[b]
    ensures IdOf(op) == e.id || Replaces(table[b], op, e)
  {
    var bucket := table[b];
    assert BucketOk(self, b, bucket);
    if op.Add? && Belongs(self, b, op.entry) && |bucket| >= 8 && Find(bucket, op.entry.id) == |bucket| {
      var i := MemberAt(bucket, e);
      hide BucketOf, IsZero, BucketOk;
      var o := Oldest(bucket);
      assert Apply(self, table, op)[b] == AddToBucket(bucket, op.entry, op.now);
      if i != o {
        UpdateKeeps(bucket, o, op.entry, i);
      }
      forall x | x in bucket
        ensures x.id != op.entry.id && bucket[o].lastSeen <= x.lastSeen
      {
        var k := MemberAt(bucket, x);
      }
    } else {
      StepInBucket(self, table, op, b);
      WithoutIdSpec(bucket, IdOf(op));
    }
  }

  /** An id that is removed is gone, and nothing else is. */
  lemma RemoveRemoves(self: NodeId, table: Table, id: NodeId, b: nat, e: Entry)
    requires TableOk(self, table) && b < NUM_BUCKETS
    ensures e in Apply(self, table, Remove(id))[b] <==> e in table[b] && e.id != id
  {
    StepInBucket(self, table, Remove(id), b);
    WithoutIdSpec(table[b], id);
    hide Apply, WithoutId;
    assert WithoutId(table[b], id) + [] == WithoutId(table[b], id);
  }

  /** A node that is neither ourselves nor zero is in the table after its add, as added, unless its bucket
      is full of good strangers. */
  lemma AddArrives(self: NodeId, table: Table, e: Entry, now: int)
    requires TableOk(self, table) && e.id != self && !IsZero(e.id)
    ensures var b := BucketOf(self, e.id);
            && b < NUM_BUCKETS
            && (e in Apply(self, table, Add(e, now))[b] <==>
                  |table[b]| < 8 || (exists x :: x in table[b] && (x.id == e.id || now - x.lastSeen >= 15 * 60 * 1000)))
  {
    var b := BucketOf(self, e.id);
    BucketRange(self, e.id, 0);
    var bucket := table[b];
    assert BucketOk(self, b, bucket) && Belongs(self, b, e);
    hide BucketOf, IsZero, BucketOk, AddToBucket;
    if |bucket| < 8 || Find(bucket, e.id) < |bucket| {
      StepInBucket(self, table, Add(e, now), b);
      if |bucket| >= 8 {
        assert bucket[Find(bucket, e.id)] in bucket;
      }
    } else {
      FullArrives(bucket, e, now);
    }
  }

  lemma FullArrives(bucket: seq<Entry>, e: Entry, now: int)
    requires |bucket| >= 8 && Find(bucket, e.id) == |bucket|
    ensures e in AddToBucket(bucket, e, now) <==>
            exists x :: x in bucket && (x.id == e.id || now - x.lastSeen >= 15 * 60 * 1000)
  {
    FullBucketPolicy(bucket, e, now);
    hide AddToBucket;
    forall x | x in bucket
      ensures x.id != e.id
    {
      var k := MemberAt(bucket, x);
    }
    if k :| 0 <= k < |bucket| && !IsGood(bucket[k], now) {
      var i :| 0 <= i < |bucket| && AddToBucket(bucket, e, now) == bucket[i := e];
      assert bucket[i := e][i] == e && bucket[k] in bucket;
    } else {
      forall x | x in bucket
        ensures IsGood(x, now)
      {
        var k := MemberAt(bucket, x);
      }
    }
  }
}
