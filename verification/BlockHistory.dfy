/** What the buffer of a claim holds after any messages at all, from a peer that need not answer what
    was asked (src/peer_wire/peer_connection.cpp:499-566). */
module BlockHistory {
  import opened Common
  import opened Disk
  import opened BlockTransfer

  /** The message lies inside the piece and starts in one of its blocks. */
  predicate Inside(length: nat, b: Block) {
    b.begin + |b.bytes| <= length && b.begin / 16384 < NumBlocks(length)
  }

  /** Message i is the first one inside the piece for its block: only such messages are stored. */
  predicate First(length: nat, blocks: seq<Block>, i: nat) {
    && i < |blocks| && Inside(length, blocks[i])
    && forall k :: 0 <= k < i && Inside(length, blocks[k]) ==> blocks[k].begin / 16384 != blocks[i].begin / 16384
  }

  /** Some message was stored for block j. */
  predicate Got(length: nat, blocks: seq<Block>, j: nat) {
    exists i :: 0 <= i < |blocks| && Inside(length, blocks[i]) && blocks[i].begin / 16384 == j
  }

  /** The byte at place p: of the stored messages that cover it the last one counts. */
  function ByteAt(length: nat, blocks: seq<Block>, p: nat): (byte: Byte) {
    if blocks == [] then 0
    else
      var n := |blocks| - 1;
      var b := blocks[n];
      if First(length, blocks, n) && b.begin <= p < b.begin + |b.bytes| then b.bytes[p - b.begin]
      else ByteAt(length, blocks[..n], p)
  }

  /** The piece as the messages so far make it. */
  ghost predicate Tells(p: InFlight, length: nat, blocks: seq<Block>) {
    && p.length == length && |p.data| == length && |p.received| == p.total == NumBlocks(length)
    && (forall j :: 0 <= j < |p.received| ==> (p.received[j] <==> Got(length, blocks, j)))
    && (forall i :: 0 <= i < length ==> p.data[i] == ByteAt(length, blocks, i))
    && (p.pending - (|p.sent| - |blocks|)) % TWO32 == 0
  }

  /** Every block of the piece has come. */
  ghost predicate AllGot(length: nat, blocks: seq<Block>) {
    forall j :: 0 <= j < NumBlocks(length) ==> Got(length, blocks, j)
  }

  lemma GotSnoc(length: nat, before: seq<Block>, b: Block, j: nat)
    ensures Got(length, before + [b], j) <==> Got(length, before, j) || (Inside(length, b) && b.begin / 16384 == j)
  {
    var blocks := before + [b];
    hide Inside;
    if i :| 0 <= i < |before| && Inside(length, before[i]) && before[i].begin / 16384 == j {
      assert blocks[i] == before[i];
    }
    assert blocks[|before|] == b;
    if i :| 0 <= i < |blocks| && Inside(length, blocks[i]) && blocks[i].begin / 16384 == j {
      if i < |before| {
        assert before[i] == blocks[i];
      }
    }
  }

  lemma FirstIsNew(length: nat, before: seq<Block>, b: Block)
    ensures First(length, before + [b], |before|) <==> Inside(length, b) && !Got(length, before, b.begin / 16384)
  {
    hide Inside;
    var blocks := before + [b];
    assert forall k :: 0 <= k < |before| ==> blocks[k] == before[k];
  }

  /** One message, before the next requests are sent. */
  lemma TakeTells(p: InFlight, length: nat, before: seq<Block>, b: Block)
    requires Tells(p, length, before)
    ensures Tells(Take(p, b), length, before + [b])
    ensures Accepts(p, b) <==> First(length, before + [b], |before|)
  {
    hide NumBlocks, Zeros;
    var blocks, q, j := before + [b], Take(p, b), b.begin / 16384;
    FirstIsNew(length, before, b);
    assert blocks[..|before|] == before;
    hide First, Got, ByteAt;
    forall i | 0 <= i < |q.received|
      ensures q.received[i] <==> Got(length, blocks, i)
    {
      GotSnoc(length, before, b, i);
    }
    forall i | 0 <= i < length
      ensures q.data[i] == ByteAt(length, blocks, i)
    {
      ByteSnoc(length, before, b, i);
    }
    Decremented(p.pending, |p.sent| - |before|);
  }

  lemma ByteSnoc(length: nat, before: seq<Block>, b: Block, p: nat)
    ensures ByteAt(length, before + [b], p)
         == if First(length, before + [b], |before|) && b.begin <= p < b.begin + |b.bytes| then b.bytes[p - b.begin]
            else ByteAt(length, before, p)
  {
    assert (before + [b])[..|before|] == before;
  }

  lemma Decremented(pending: nat, open: int)
    requires (pending - open) % TWO32 == 0
    ensures ((pending - 1) % TWO32 - (open - 1)) % TWO32 == 0
  {
    if pending == 0 {
      assert (pending - 1) % TWO32 == TWO32 - 1;
    }
  }

  /** Requests change neither the buffer nor what is owed. */
  lemma FillTells(p: InFlight, length: nat, blocks: seq<Block>)
    requires Consistent(p) && Tells(p, length, blocks)
    ensures Tells(Fill(p), length, blocks)
  {
    hide Consistent, Fill, Got, ByteAt;
    FillKeeps(p);
  }

  lemma {:induction false} StaysActive(index: nat, length: nat, blocks: seq<Block>)
    requires blocks != [] && Claimed(index, length, blocks).Active?
    ensures Claimed(index, length, blocks[..|blocks| - 1]).Active?
  {
  }

  /** While a claim is downloading, whatever messages arrive: a block is marked exactly if a message inside
      the piece came for it, each byte is that of the last of the first messages that covers it, the counter
      is the requests less the messages modulo 2^32, and the buffer is handed over exactly when the message
      is the first for its block and no other block is missing. */
  lemma {:induction false} AnyBuffer(index: nat, length: nat, blocks: seq<Block>)
    requires length < TWO32
    requires blocks != [] ==> Claimed(index, length, blocks[..|blocks| - 1]).Active?
    ensures var c := Claimed(index, length, blocks);
            && Tells(c.p, length, blocks)
            && (c.HandedOver? <==> blocks != [] && First(length, blocks, |blocks| - 1) && AllGot(length, blocks))
  {
    hide Tells, Fill, Consistent, First, AllGot, Take, Accepts;
    if blocks == [] {
      NewTells(index, length);
      NewClaimConsistent(index, length);
      FillTells(NewClaim(index, length), length, []);
    } else {
      var n := |blocks| - 1;
      var before, b := blocks[..n], blocks[n];
      var p := Claimed(index, length, before).p;
      if before != [] {
        StaysActive(index, length, before);
      }
      AnyBuffer(index, length, before);
      AnyMessages(index, length, before);
      SplitEnd(blocks);
      TakeTells(p, length, before, b);
      TakeKeeps(p, b);
      FillTells(Take(p, b), length, blocks);
      CompleteMeans(p, length, before, b);
    }
  }

  lemma NewTells(index: nat, length: nat)
    ensures Tells(NewClaim(index, length), length, [])
  {
    hide NumBlocks;
  }

  lemma CompleteMeans(p: InFlight, length: nat, before: seq<Block>, b: Block)
    requires Consistent(p) && Tells(p, length, before) && Tells(Take(p, b), length, before + [b])
    requires Accepts(p, b) <==> First(length, before + [b], |before|)
    ensures Complete(p, b) <==> First(length, before + [b], |before|) && AllGot(length, before + [b])
  {
    hide First, Got, ByteAt, Tiles, NumBlocks, CountTrue;
    if Accepts(p, b) {
      var q := Take(p, b);
      TakeKeeps(p, b);
      if q.done >= q.total {
        CountFull(q.received);
      }
      if AllGot(length, before + [b]) {
        AllCounted(q.received);
      }
    }
  }

  lemma {:induction false} AllCounted(flags: seq<bool>)
    requires forall j :: 0 <= j < |flags| ==> flags[j]
    ensures CountTrue(flags) == |flags|
  {
    SumOfPrefix(|flags|, |flags|);
    assert Ones(flags) == seq(|flags|, i => if i < |flags| then 1 else 0);
  }
}
