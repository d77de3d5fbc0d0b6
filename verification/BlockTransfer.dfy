/** How one connection requests the blocks of its piece and assembles the answers
    (src/peer_wire/peer_connection.cpp:254-329, 389-413, 499-589). */
module BlockTransfer {
  import opened Common
  import opened Disk

  const BLOCK: nat := 16384
  const MAX_PIPELINE: nat := 15

  datatype Request = Request(begin: nat, length: nat)

  /** A Piece message for the piece in flight. */
  datatype Block = Block(begin: nat, bytes: seq<Byte>)

  /** InFlightPiece; `sent` is the history of requests, which no operation reads. */
  datatype InFlight = InFlight(index: nat, length: nat, next: nat, pending: nat,
                               data: seq<Byte>, received: seq<bool>, done: nat, total: nat,
                               sent: seq<Request>)

  /** The number of blocks, in 32-bit arithmetic: the sum wraps for a piece within a block of 2^32. */
  function NumBlocks(length: nat): (n: nat) {
    (length + BLOCK - 1) % TWO32 / BLOCK
  }

  predicate Wraps(length: nat) {
    length + BLOCK > TWO32
  }

  /** The buffer and flags of a fresh claim. */
  function NewClaim(index: nat, length: nat): (p: InFlight) {
    var blocks := NumBlocks(length);
    InFlight(index, length, 0, 0, Zeros(length), seq(blocks, _ => false), 0, blocks, [])
  }

  /** The request loop of fill_requests. */
  function Fill(p: InFlight): (r: InFlight)
    decreases p.length - p.next
  {
    if p.pending < MAX_PIPELINE && p.next < p.length then
      var len := Min(BLOCK, p.length - p.next);
      Fill(p.(next := p.next + len, pending := p.pending + 1, sent := p.sent + [Request(p.next, len)]))
    else p
  }

  /** Whether handle_piece stores the block. */
  predicate Accepts(p: InFlight, b: Block) {
    && b.begin + |b.bytes| <= |p.data|
    && b.begin / BLOCK < |p.received|
    && !p.received[b.begin / BLOCK]
  }

  /** handle_piece up to the hand-over; the in-flight counter is an unsigned 32-bit number. */
  function Take(p: InFlight, b: Block): (r: InFlight) {
    var q := p.(pending := (p.pending - 1) % TWO32);
    if !Accepts(p, b) then q
    else q.(data := Patch(p.data, b.begin, b.bytes), received := p.received[b.begin / BLOCK := true], done := p.done + 1)
  }

  predicate Complete(p: InFlight, b: Block) {
    Accepts(p, b) && p.done + 1 >= p.total
  }

  /** A claim while it is downloading, or the buffer it handed to complete_piece. */
  datatype Claim = Active(p: InFlight) | HandedOver(p: InFlight)

  /** One message and the fill_requests that run() makes after it. */
  function Message(c: Claim, b: Block): (r: Claim) {
    if c.HandedOver? then c
    else if Complete(c.p, b) then HandedOver(Take(c.p, b))
    else Active(Fill(Take(c.p, b)))
  }

  function Claimed(index: nat, length: nat, blocks: seq<Block>): (c: Claim) {
    if blocks == [] then Active(Fill(NewClaim(index, length)))
    else Message(Claimed(index, length, blocks[..|blocks| - 1]), blocks[|blocks| - 1])
  }

  // ---------------------------------------------------------------------------
  // Whatever messages arrive
  // ---------------------------------------------------------------------------

  function CountTrue(flags: seq<bool>): (n: nat) {
    Sum(Ones(flags))
  }

  function Ones(flags: seq<bool>): (ws: seq<nat>) {
    seq(|flags|, i requires 0 <= i < |flags| => if flags[i] then 1 else 0)
  }

  /** The requests lie end to end from the start of the piece, none empty, none above 16 KiB. */
  predicate Tiles(sent: seq<Request>, end: nat) {
    && (forall j :: 0 <= j < |sent| ==> 0 < sent[j].length <= BLOCK)
    && (forall j :: 0 <= j < |sent| ==> sent[j].begin == j * BLOCK)
    && (forall j :: 0 <= j < |sent| - 1 ==> sent[j].length == BLOCK)
    && (if sent == [] then end == 0 else end == sent[|sent| - 1].begin + sent[|sent| - 1].length)
  }

  predicate Consistent(p: InFlight) {
    && p.length < TWO32
    && |p.data| == p.length
    && |p.received| == p.total == NumBlocks(p.length)
    && p.done == CountTrue(p.received)
    && Tiles(p.sent, p.next)
    && p.next <= p.length
    && (p.next < p.length ==> p.next == |p.sent| * BLOCK)
  }

  lemma {:induction false} FillKeeps(p: InFlight)
    requires Consistent(p)
    ensures Consistent(Fill(p))
    ensures p.sent <= Fill(p).sent
    ensures Fill(p) == p.(next := Fill(p).next, pending := Fill(p).pending, sent := Fill(p).sent)
    ensures Fill(p).pending - p.pending == |Fill(p).sent| - |p.sent|
    ensures Fill(p).next == p.length || Fill(p).pending >= MAX_PIPELINE
    ensures p.pending <= MAX_PIPELINE ==> Fill(p).pending <= MAX_PIPELINE
    decreases p.length - p.next
  {
    hide CountTrue, Zeros, Tiles;
    if p.pending < MAX_PIPELINE && p.next < p.length {
      var len := Min(BLOCK, p.length - p.next);
      var q := p.(next := p.next + len, pending := p.pending + 1, sent := p.sent + [Request(p.next, len)]);
      TilesExtend(p, len);
      FillKeeps(q);
    }
  }

  lemma TilesExtend(p: InFlight, len: nat)
    requires Tiles(p.sent, p.next) && p.next < p.length && p.next == |p.sent| * BLOCK
    requires len == Min(BLOCK, p.length - p.next)
    ensures Tiles(p.sent + [Request(p.next, len)], p.next + len)
    ensures p.next + len < p.length ==> p.next + len == (|p.sent| + 1) * BLOCK
  {
    if p.sent != [] {
      assert p.sent[|p.sent| - 1].begin == (|p.sent| - 1) * BLOCK;
    }
  }

  lemma TakeKeeps(p: InFlight, b: Block)
    requires Consistent(p)
    ensures Consistent(Take(p, b))
  {
    hide Tiles, Sum;
    if Accepts(p, b) {
      var i := b.begin / BLOCK;
      SumUpdate(Ones(p.received), i, 1);
      assert Ones(p.received)[i := 1] == Ones(p.received[i := true]);
    }
  }

  lemma NewClaimConsistent(index: nat, length: nat)
    requires length < TWO32
    ensures Consistent(NewClaim(index, length))
  {
    SumOfZeros(Ones(NewClaim(index, length).received));
  }

  /** For every sequence of messages: the requests of a claim tile a prefix of the piece in order,
      the done count is the number of flags set, block writes never leave the buffer, and the
      pipeline is kept full until everything is requested, even if the in-flight counter wraps. */
  lemma {:induction false} AnyMessages(index: nat, length: nat, blocks: seq<Block>)
    requires length < TWO32
    ensures var c := Claimed(index, length, blocks);
            && Consistent(c.p) && c.p.length == length && c.p.index == index
            && (c.Active? ==> c.p.next == length || c.p.pending == 15)
  {
    hide Consistent, Take, Accepts, Zeros;
    if blocks == [] {
      NewClaimConsistent(index, length);
      FillKeeps(NewClaim(index, length));
    } else {
      var n := |blocks| - 1;
      AnyMessages(index, length, blocks[..n]);
      var c := Claimed(index, length, blocks[..n]);
      if c.Active? {
        TakeKeeps(c.p, blocks[n]);
        TakeShape(c.p, blocks[n]);
        FillKeeps(Take(c.p, blocks[n]));
      }
    }
  }

  /** An empty piece, or one within a block of 2^32 bytes, gets no block flags, so no block is ever
      accepted and the piece never completes, whatever arrives. */
  lemma {:induction false} NeverCompletes(index: nat, length: nat, blocks: seq<Block>)
    requires length < TWO32 && (length == 0 || Wraps(length))
    ensures Claimed(index, length, blocks).Active? && Claimed(index, length, blocks).p.done == 0
  {
    AnyMessages(index, length, blocks);
    assert NumBlocks(length) == 0;
    if blocks != [] {
      var n := |blocks| - 1;
      NeverCompletes(index, length, blocks[..n]);
      AnyMessages(index, length, blocks[..n]);
      hide Claimed, Fill, Tiles;
      var p := Claimed(index, length, blocks[..n]).p;
      assert !Accepts(p, blocks[n]);
      ClaimedStep(index, length, blocks);
      TakeKeeps(p, blocks[n]);
      FillKeeps(Take(p, blocks[n]));
    }
  }

  lemma ClaimedStep(index: nat, length: nat, blocks: seq<Block>)
    requires blocks != []
    ensures Claimed(index, length, blocks) == Message(Claimed(index, length, blocks[..|blocks| - 1]), blocks[|blocks| - 1])
  {
  }

  lemma TakeShape(p: InFlight, b: Block)
    ensures Take(p, b).length == p.length && Take(p, b).index == p.index && Take(p, b).next == p.next
    ensures Take(p, b).sent == p.sent
    ensures Take(p, b).pending == (p.pending - 1) % TWO32
  {
  }

  // ---------------------------------------------------------------------------
  // A peer that answers only outstanding requests, each at most once and in full
  // ---------------------------------------------------------------------------

  /** The answers so far, by request number. */
  function Answers(blocks: seq<Block>): (m: map<nat, seq<Byte>>) {
    if blocks == [] then map[]
    else Answers(blocks[..|blocks| - 1])[blocks[|blocks| - 1].begin / BLOCK := blocks[|blocks| - 1].bytes]
  }

  function InOrder(answers: map<nat, seq<Byte>>, k: nat): (blocks: seq<seq<Byte>>)
    requires forall j :: 0 <= j < k ==> j in answers
  {
    seq(k, j requires 0 <= j < k => answers[j])
  }

  predicate AnswersOutstanding(p: InFlight, answers: map<nat, seq<Byte>>, b: Block) {
    var j := b.begin / BLOCK;
    j < |p.sent| && Request(b.begin, |b.bytes|) == p.sent[j] && j !in answers
  }

  predicate HonestRun(index: nat, length: nat, blocks: seq<Block>) {
    blocks == [] ||
    (var n := |blocks| - 1;
     && HonestRun(index, length, blocks[..n])
     && Claimed(index, length, blocks[..n]).Active?
     && AnswersOutstanding(Claimed(index, length, blocks[..n]).p, Answers(blocks[..n]), blocks[n]))
  }

  /** Request j has been answered, and the buffer holds the answer at its place. */
  predicate Stored(p: InFlight, j: nat, bytes: seq<Byte>) {
    && j < |p.sent| && j < |p.received| && p.received[j]
    && |bytes| == p.sent[j].length && j * BLOCK + |bytes| <= |p.data|
    && p.data[j * BLOCK..j * BLOCK + |bytes|] == bytes
  }

  ghost predicate InStep(p: InFlight, answers: map<nat, seq<Byte>>) {
    && (forall j :: j in answers ==> Stored(p, j, answers[j]))
    && (forall j :: 0 <= j < |p.received| && p.received[j] ==> j in answers)
    && p.pending + p.done == |p.sent|
    && p.pending <= MAX_PIPELINE
  }

  lemma {:induction false} SumOfPrefix(size: nat, n: nat)
    requires n <= size
    ensures Sum(seq(size, i => if i < n then 1 else 0)) == n
  {
    if size > 0 {
      var ws: seq<nat> := seq(size, i => if i < n then 1 else 0);
      if n == size {
        SumOfPrefix(size - 1, n - 1);
        assert ws[..size - 1] == seq(size - 1, i => if i < n - 1 then 1 else 0);
      } else {
        SumOfPrefix(size - 1, n);
        assert ws[..size - 1] == seq(size - 1, i => if i < n then 1 else 0);
      }
    }
  }

  lemma CountBelow(flags: seq<bool>, n: nat, j: nat)
    requires j < n <= |flags| && !flags[j]
    requires forall i :: 0 <= i < |flags| && flags[i] ==> i < n
    ensures CountTrue(flags) < n
  {
    hide Sum;
    var ws: seq<nat> := seq(|flags|, i => if i < n then 1 else 0);
    SumOfPrefix(|flags|, n);
    SumMonotone(Ones(flags), ws);
    assert Ones(flags)[j] != ws[j];
  }

  lemma CountFull(flags: seq<bool>)
    requires CountTrue(flags) >= |flags|
    ensures forall j :: 0 <= j < |flags| ==> flags[j]
  {
    forall j | 0 <= j < |flags|
      ensures flags[j]
    {
      if !flags[j] {
        CountBelow(flags, |flags|, j);
      }
    }
  }

  /** The requests sent so far are no more than the blocks of the piece. */
  lemma SentBound(p: InFlight)
    requires Consistent(p) && !Wraps(p.length)
    ensures |p.sent| <= p.total
    ensures forall j :: 0 <= j < |p.sent| ==> j * BLOCK + p.sent[j].length <= p.length
    ensures p.next == p.length ==> |p.sent| == p.total
  {
    hide CountTrue;
    if p.sent != [] {
      var last := |p.sent| - 1;
      assert p.sent[last].begin == last * BLOCK;
      forall j | 0 <= j < |p.sent|
        ensures j * BLOCK + p.sent[j].length <= p.length
      {
        if j < last {
          MulStep(j, last, BLOCK);
        }
      }
    }
  }

  /** An answer to an outstanding request is always accepted and stored in its place. */
  lemma HonestTake(p: InFlight, answers: map<nat, seq<Byte>>, b: Block)
    requires Consistent(p) && !Wraps(p.length) && InStep(p, answers) && AnswersOutstanding(p, answers, b)
    ensures Accepts(p, b) && p.pending > 0
    ensures InStep(Take(p, b), answers[b.begin / BLOCK := b.bytes])
  {
    hide CountTrue;
    var j, q := b.begin / BLOCK, Take(p, b);
    SentBound(p);
    assert p.sent[j].begin == j * BLOCK;
    CountBelow(p.received, |p.sent|, j);
    assert Accepts(p, b);
    forall i | i in answers
      ensures i != j && Stored(q, i, answers[i])
    {
      StoredElsewhere(p, b, i, answers[i]);
    }
    assert Stored(q, j, b.bytes);
  }

  lemma StoredElsewhere(p: InFlight, b: Block, i: nat, bytes: seq<Byte>)
    requires Consistent(p) && Stored(p, i, bytes) && Accepts(p, b)
    requires b.begin == (b.begin / BLOCK) * BLOCK && |b.bytes| <= BLOCK
    ensures i != b.begin / BLOCK && Stored(Take(p, b), i, bytes)
  {
    hide CountTrue;
    var j := b.begin / BLOCK;
    assert i != j;
    if i < j {
      MulStep(i, j, BLOCK);
    } else {
      MulStep(j, i, BLOCK);
    }
    var data := Patch(p.data, b.begin, b.bytes);
    assert data[i * BLOCK..i * BLOCK + |bytes|] == p.data[i * BLOCK..i * BLOCK + |bytes|];
  }

  lemma FillInStep(p: InFlight, answers: map<nat, seq<Byte>>)
    requires Consistent(p) && InStep(p, answers)
    ensures InStep(Fill(p), answers)
  {
    hide CountTrue, Fill;
    FillKeeps(p);
    var q := Fill(p);
    forall j | j in answers
      ensures Stored(q, j, answers[j])
    {
      assert Stored(p, j, answers[j]);
      assert q.sent[j] == p.sent[j];
    }
  }

  /** How many numbers below m can be taken when j is free. */
  lemma {:induction false} RoomFor(taken: set<nat>, m: nat, j: nat)
    requires j < m && j !in taken && forall x :: x in taken ==> x < m
    ensures |taken| < m
  {
    if m - 1 in taken {
      RoomFor(taken - {m - 1}, m - 1, j);
    } else if taken != {} {
      if j == m - 1 {
        var x :| x in taken;
        RoomFor(taken - {x}, m - 1, x);
      } else {
        RoomFor(taken, m - 1, j);
      }
    }
  }

  /** Requests answered and in flight are the requests sent; at most 15 are in flight. */
  ghost predicate InFlightOk(p: InFlight, answers: map<nat, seq<Byte>>) {
    && (forall j :: j in answers ==> j < |p.sent|)
    && p.pending + |answers| == |p.sent|
    && p.pending <= MAX_PIPELINE
  }

  lemma HonestCount(p: InFlight, answers: map<nat, seq<Byte>>, b: Block)
    requires Consistent(p) && InFlightOk(p, answers) && AnswersOutstanding(p, answers, b)
    ensures InFlightOk(Take(p, b), answers[b.begin / BLOCK := b.bytes])
    ensures InFlightOk(Fill(Take(p, b)), answers[b.begin / BLOCK := b.bytes])
  {
    hide Consistent, Fill, Accepts, Take;
    var j, q := b.begin / BLOCK, Take(p, b);
    RoomFor(answers.Keys, |p.sent|, j);
    TakeShape(p, b);
    OneLess(p.pending);
    OneMoreKey(answers, j, b.bytes);
    TakeKeeps(p, b);
    FillCounts(q, answers[j := b.bytes]);
  }

  lemma OneLess(pending: nat)
    requires 0 < pending <= MAX_PIPELINE
    ensures (pending - 1) % TWO32 == pending - 1
  {
  }

  lemma OneMoreKey(m: map<nat, seq<Byte>>, j: nat, bytes: seq<Byte>)
    requires j !in m
    ensures |m[j := bytes]| == |m| + 1
  {
    assert m[j := bytes].Keys == m.Keys + {j};
  }

  lemma FillCounts(p: InFlight, answers: map<nat, seq<Byte>>)
    requires Consistent(p) && InFlightOk(p, answers)
    ensures InFlightOk(Fill(p), answers)
  {
    hide Fill, Consistent;
    FillKeeps(p);
  }

  /** Against an honest peer at most 15 requests are ever in flight; and unless the block count wraps
      every answer is stored at its own offset and none is refused. */
  lemma {:induction false} HonestRunInStep(index: nat, length: nat, blocks: seq<Block>)
    requires length < TWO32 && HonestRun(index, length, blocks)
    ensures var c := Claimed(index, length, blocks);
            && Consistent(c.p) && c.p.length == length
            && InFlightOk(c.p, Answers(blocks)) && |Answers(blocks)| == |blocks|
            && (!Wraps(length) ==> InStep(c.p, Answers(blocks)))
            && (c.HandedOver? ==> c.p.done >= c.p.total)
  {
    hide Consistent, InStep, Take, Zeros, Fill, InFlightOk, Wraps;
    AnyMessages(index, length, blocks);
    if blocks == [] {
      NewClaimConsistent(index, length);
      NewClaimInStep(index, length);
      NewClaimInFlight(index, length);
      if !Wraps(length) {
        FillInStep(NewClaim(index, length), map[]);
      }
    } else {
      var n := |blocks| - 1;
      AnyMessages(index, length, blocks[..n]);
      HonestRunInStep(index, length, blocks[..n]);
      var p, answers := Claimed(index, length, blocks[..n]).p, Answers(blocks[..n]);
      HonestCount(p, answers, blocks[n]);
      OneMoreKey(answers, blocks[n].begin / BLOCK, blocks[n].bytes);
      if Complete(p, blocks[n]) {
        TakeDone(p, blocks[n]);
      }
      if !Wraps(length) {
        HonestTake(p, answers, blocks[n]);
        TakeKeeps(p, blocks[n]);
        FillInStep(Take(p, blocks[n]), Answers(blocks));
      }
    }
  }

  lemma NewClaimInFlight(index: nat, length: nat)
    requires length < TWO32
    ensures InFlightOk(Fill(NewClaim(index, length)), map[])
  {
    hide Fill, Consistent;
    NewClaimConsistent(index, length);
    FillKeeps(NewClaim(index, length));
  }

  lemma TakeDone(p: InFlight, b: Block)
    requires Accepts(p, b)
    ensures Take(p, b).done == p.done + 1 && Take(p, b).total == p.total
  {
  }

  lemma NewClaimInStep(index: nat, length: nat)
    ensures InStep(NewClaim(index, length), map[])
  {
  }

  lemma InOrderStep(answers: map<nat, seq<Byte>>, k: nat)
    requires forall j :: 0 <= j <= k ==> j in answers
    ensures Flat(InOrder(answers, k + 1)) == Flat(InOrder(answers, k)) + answers[k]
  {
    assert InOrder(answers, k + 1)[..k] == InOrder(answers, k);
  }

  lemma {:induction false} BufferIsConcat(p: InFlight, answers: map<nat, seq<Byte>>, k: nat)
    requires Tiles(p.sent, p.next) && k <= |p.sent|
    requires forall j :: 0 <= j < |p.sent| ==> j in answers && Stored(p, j, answers[j])
    ensures var end := if k == 0 then 0 else (k - 1) * BLOCK + p.sent[k - 1].length;
            && end <= |p.data|
            && p.data[..end] == Flat(InOrder(answers, k))
  {
    if k > 0 {
      hide Flat;
      BufferIsConcat(p, answers, k - 1);
      InOrderStep(answers, k - 1);
      assert Stored(p, k - 1, answers[k - 1]);
      if k > 1 {
        assert p.sent[k - 2].length == BLOCK;
      }
      var end := (k - 1) * BLOCK + p.sent[k - 1].length;
      assert p.data[..end] == p.data[..(k - 1) * BLOCK] + p.data[(k - 1) * BLOCK..end];
    }
  }

  /** The buffer handed to complete_piece by an honest exchange is the in-order concatenation of
      the answers to all requests, and the requests cover the whole piece. */
  lemma HonestBuffer(index: nat, length: nat, blocks: seq<Block>)
    requires length < TWO32 && HonestRun(index, length, blocks)
    requires Claimed(index, length, blocks).HandedOver?
    ensures var p, answers := Claimed(index, length, blocks).p, Answers(blocks);
            && |p.sent| == p.total == (length + BLOCK - 1) / BLOCK
            && (forall j :: 0 <= j < p.total ==> j in answers && |answers[j]| == p.sent[j].length)
            && p.data == Flat(InOrder(answers, p.total))
  {
    hide Fill, Take, CountTrue, Claimed, HonestRun, Answers, Flat, Tiles, Stored, InStep, InFlightOk, Consistent;
    if Wraps(length) {
      NeverCompletes(index, length, blocks);
      assert false;
    }
    HonestRunInStep(index, length, blocks);
    var p, answers := Claimed(index, length, blocks).p, Answers(blocks);
    AllAnswered(p, answers);
    BufferIsConcat(p, answers, p.total);
    assert p.data[..p.length] == p.data;
  }

  /** When every flag is set, every request was sent and its answer stored. */
  lemma AllAnswered(p: InFlight, answers: map<nat, seq<Byte>>)
    requires Consistent(p) && !Wraps(p.length) && InStep(p, answers) && p.done >= p.total
    ensures |p.sent| == p.total == (p.length + BLOCK - 1) / BLOCK && Tiles(p.sent, p.next) && |p.data| == p.length
    ensures forall j :: 0 <= j < |p.sent| ==> j in answers && Stored(p, j, answers[j]) && |answers[j]| == p.sent[j].length
    ensures p.total > 0 ==> (p.total - 1) * BLOCK + p.sent[p.total - 1].length == p.length
    ensures p.total == 0 ==> p.length == 0
  {
    hide CountTrue;
    CountFull(p.received);
    SentBound(p);
    forall j | 0 <= j < p.total
      ensures j in answers && |answers[j]| == p.sent[j].length && j < |p.sent|
    {
      assert Stored(p, j, answers[j]);
    }
    if p.total > 0 {
      assert p.total - 1 < |p.sent|;
      assert p.sent[p.total - 1].begin == (p.total - 1) * BLOCK;
    }
  }

  // ---------------------------------------------------------------------------
  // Which pieces can be completed
  // ---------------------------------------------------------------------------

  lemma {:induction false} ActiveIsShort(index: nat, length: nat, blocks: seq<Block>)
    requires 0 < length < TWO32 && !Wraps(length) && Claimed(index, length, blocks).Active?
    ensures Claimed(index, length, blocks).p.done < Claimed(index, length, blocks).p.total
  {
    if blocks == [] {
      NewClaimConsistent(index, length);
      FillKeeps(NewClaim(index, length));
      hide Fill;
      assert NumBlocks(length) > 0;
    } else {
      var n := |blocks| - 1;
      ActiveIsShort(index, length, blocks[..n]);
      AnyMessages(index, length, blocks[..n]);
      hide Claimed, Fill, Tiles, CountTrue, Zeros;
      ClaimedStep(index, length, blocks);
      var p := Claimed(index, length, blocks[..n]).p;
      TakeKeeps(p, blocks[n]);
      FillKeeps(Take(p, blocks[n]));
    }
  }

  /** While an honest claim is active some request is unanswered, so the peer can always move on. */
  lemma SomeUnanswered(index: nat, length: nat, blocks: seq<Block>) returns (j: nat)
    requires 0 < length < TWO32 && !Wraps(length) && HonestRun(index, length, blocks)
    requires Claimed(index, length, blocks).Active?
    ensures j < |Claimed(index, length, blocks).p.sent| && j !in Answers(blocks)
  {
    hide Claimed, HonestRun, Answers, CountTrue, Tiles, Fill;
    var p, answers := Claimed(index, length, blocks).p, Answers(blocks);
    AnyMessages(index, length, blocks);
    HonestRunInStep(index, length, blocks);
    ActiveIsShort(index, length, blocks);
    SentBound(p);
    assert p.done < |p.sent|;
    if forall i :: 0 <= i < |p.sent| ==> p.received[i] {
      CountAtLeast(p.received, |p.sent|);
    }
    j :| 0 <= j < |p.sent| && !p.received[j];
  }

  lemma CountAtLeast(flags: seq<bool>, n: nat)
    requires n <= |flags| && forall i :: 0 <= i < n ==> flags[i]
    ensures CountTrue(flags) >= n
  {
    hide Sum;
    SumOfPrefix(|flags|, n);
    SumMonotone(seq(|flags|, i => if i < n then 1 else 0), Ones(flags));
  }

  /** All answers so far are slices of one piece. */
  ghost predicate SlicesOf(data: seq<Byte>, answers: map<nat, seq<Byte>>) {
    forall j :: j in answers ==>
      j * BLOCK + |answers[j]| <= |data| && answers[j] == data[j * BLOCK..j * BLOCK + |answers[j]|]
  }

  /** From any honest exchange that sends slices of `data` the peer can go on until the whole of
      `data` is handed over. */
  lemma {:induction false} HonestDrain(index: nat, length: nat, data: seq<Byte>, blocks: seq<Block>) returns (all: seq<Block>)
    requires 0 < length < TWO32 && !Wraps(length) && |data| == length
    requires HonestRun(index, length, blocks) && SlicesOf(data, Answers(blocks))
    ensures blocks <= all && HonestRun(index, length, all)
    ensures Claimed(index, length, all).HandedOver? && Claimed(index, length, all).p.data == data
    decreases NumBlocks(length) - Claimed(index, length, blocks).p.done
  {
    hide HonestRun, Answers, Claimed, Fill, CountTrue, Tiles, SlicesOf, Consistent, InStep, InFlightOk, Stored;
    AnyMessages(index, length, blocks);
    if Claimed(index, length, blocks).HandedOver? {
      all := blocks;
      HandsOver(index, length, data, blocks);
    } else {
      var j := SomeUnanswered(index, length, blocks);
      var b := AnswerTo(index, length, data, blocks, j);
      DoneGrows(index, length, blocks, b);
      all := HonestDrain(index, length, data, blocks + [b]);
    }
  }

  /** The answer to request j that sends its slice of the piece. */
  lemma AnswerTo(index: nat, length: nat, data: seq<Byte>, blocks: seq<Block>, j: nat) returns (b: Block)
    requires length < TWO32 && !Wraps(length) && |data| == length
    requires HonestRun(index, length, blocks) && Claimed(index, length, blocks).Active? && SlicesOf(data, Answers(blocks))
    requires j < |Claimed(index, length, blocks).p.sent| && j !in Answers(blocks)
    ensures HonestRun(index, length, blocks + [b]) && SlicesOf(data, Answers(blocks + [b]))
    ensures AnswersOutstanding(Claimed(index, length, blocks).p, Answers(blocks), b)
  {
    hide Claimed, Fill, CountTrue, Tiles, SlicesOf, HonestRun, Answers;
    var p := Claimed(index, length, blocks).p;
    AnyMessages(index, length, blocks);
    SentBound(p);
    RequestAt(p, j);
    b := Block(p.sent[j].begin, data[p.sent[j].begin..p.sent[j].begin + p.sent[j].length]);
    HonestMore(index, length, blocks, b);
    SlicesGrow(data, Answers(blocks), j, b.bytes);
  }

  lemma RequestAt(p: InFlight, j: nat)
    requires Consistent(p) && j < |p.sent|
    ensures p.sent[j].begin == j * BLOCK && p.sent[j].begin / BLOCK == j
  {
  }

  lemma HonestMore(index: nat, length: nat, blocks: seq<Block>, b: Block)
    requires HonestRun(index, length, blocks) && Claimed(index, length, blocks).Active?
    requires AnswersOutstanding(Claimed(index, length, blocks).p, Answers(blocks), b)
    ensures HonestRun(index, length, blocks + [b])
    ensures Answers(blocks + [b]) == Answers(blocks)[b.begin / BLOCK := b.bytes]
  {
    hide Claimed, AnswersOutstanding;
    assert (blocks + [b])[..|blocks|] == blocks;
  }

  lemma SlicesGrow(data: seq<Byte>, answers: map<nat, seq<Byte>>, j: nat, bytes: seq<Byte>)
    requires SlicesOf(data, answers)
    requires j * BLOCK + |bytes| <= |data| && bytes == data[j * BLOCK..j * BLOCK + |bytes|]
    ensures SlicesOf(data, answers[j := bytes])
  {
  }

  lemma DoneGrows(index: nat, length: nat, blocks: seq<Block>, b: Block)
    requires length < TWO32 && !Wraps(length) && HonestRun(index, length, blocks) && Claimed(index, length, blocks).Active?
    requires AnswersOutstanding(Claimed(index, length, blocks).p, Answers(blocks), b)
    ensures Claimed(index, length, blocks + [b]).p.done == Claimed(index, length, blocks).p.done + 1
    ensures Claimed(index, length, blocks + [b]).p.done <= NumBlocks(length)
  {
    hide Fill, CountTrue, Tiles, HonestRun, Answers, InFlightOk;
    var p, all := Claimed(index, length, blocks).p, blocks + [b];
    assert all[..|blocks|] == blocks;
    AnyMessages(index, length, blocks);
    AnyMessages(index, length, all);
    HonestRunInStep(index, length, blocks);
    HonestTake(p, Answers(blocks), b);
    ClaimedStep(index, length, all);
    hide Claimed, InStep;
    TakeKeeps(p, b);
    FillKeeps(Take(p, b));
    CountUpTo(Claimed(index, length, all).p.received);
  }

  lemma CountUpTo(flags: seq<bool>)
    ensures CountTrue(flags) <= |flags|
  {
    hide Sum;
    SumOfPrefix(|flags|, |flags|);
    SumMonotone(Ones(flags), seq(|flags|, i => if i < |flags| then 1 else 0));
  }

  /** What is handed over is the piece the answers were cut from. */
  lemma HandsOver(index: nat, length: nat, data: seq<Byte>, blocks: seq<Block>)
    requires length < TWO32 && !Wraps(length) && |data| == length
    requires HonestRun(index, length, blocks) && SlicesOf(data, Answers(blocks))
    requires Claimed(index, length, blocks).HandedOver?
    ensures Claimed(index, length, blocks).p.data == data
  {
    hide Claimed, HonestRun, Answers, Fill, CountTrue, Flat, InOrder, InFlightOk;
    var p, answers := Claimed(index, length, blocks).p, Answers(blocks);
    HonestBuffer(index, length, blocks);
    HonestRunInStep(index, length, blocks);
    SentBound(p);
    assert |p.data| == |data|;
    forall x | 0 <= x < |data|
      ensures p.data[x] == data[x]
    {
      var j := x / BLOCK;
      BlockOf(p, x);
      assert Stored(p, j, answers[j]);
      assert p.data[j * BLOCK..j * BLOCK + |answers[j]|][x - j * BLOCK] == p.data[x];
      assert data[j * BLOCK..j * BLOCK + |answers[j]|][x - j * BLOCK] == data[x];
    }
  }

  /** When everything is requested, position x lies in request x / BLOCK. */
  lemma BlockOf(p: InFlight, x: nat)
    requires Consistent(p) && !Wraps(p.length) && |p.sent| == p.total && x < p.length
    ensures var j := x / BLOCK; j < p.total && j * BLOCK <= x < j * BLOCK + p.sent[j].length
  {
    hide CountTrue;
    var j := x / BLOCK;
    assert p.sent[p.total - 1].begin == (p.total - 1) * BLOCK;
  }

  /** A piece can be completed if and only if it is not empty and its block count does not wrap; and
      then an honest peer can hand over any bytes it has. */
  lemma CompletableIff(index: nat, length: nat)
    requires length < TWO32
    ensures (exists blocks :: Claimed(index, length, blocks).HandedOver?) <==> 0 < length && !Wraps(length)
    ensures (exists blocks :: HonestRun(index, length, blocks) && Claimed(index, length, blocks).HandedOver?)
            <==> 0 < length && !Wraps(length)
    ensures 0 < length && !Wraps(length) ==>
              forall data :: |data| == length ==> CanHandOver(index, length, data)
  {
    hide HonestRun, Claimed, CanHandOver, Wraps;
    if 0 < length && !Wraps(length) {
      forall data: seq<Byte> | |data| == length
        ensures CanHandOver(index, length, data)
      {
        HandOverAny(index, length, data);
      }
      HandOverSome(index, length, Zeros(length));
    } else {
      forall blocks
        ensures Claimed(index, length, blocks).Active?
      {
        NeverCompletes(index, length, blocks);
      }
    }
  }

  lemma HandOverAny(index: nat, length: nat, data: seq<Byte>)
    requires 0 < length < TWO32 && !Wraps(length) && |data| == length
    ensures CanHandOver(index, length, data)
  {
    assert HonestRun(index, length, []) && Answers([]) == map[];
    hide HonestRun, Answers, Claimed;
    var all := HonestDrain(index, length, data, []);
  }

  lemma HandOverSome(index: nat, length: nat, data: seq<Byte>)
    requires CanHandOver(index, length, data)
    ensures exists blocks :: HonestRun(index, length, blocks) && Claimed(index, length, blocks).HandedOver?
  {
    hide HonestRun, Claimed;
    var blocks :| HonestRun(index, length, blocks) && Claimed(index, length, blocks).HandedOver?
                  && Claimed(index, length, blocks).p.data == data;
  }

  ghost predicate CanHandOver(index: nat, length: nat, data: seq<Byte>) {
    exists blocks :: HonestRun(index, length, blocks) && Claimed(index, length, blocks).HandedOver?
                     && Claimed(index, length, blocks).p.data == data
  }

  // ---------------------------------------------------------------------------
  // The connection
  // ---------------------------------------------------------------------------

  datatype Pick = Pick(index: nat, exclusive: bool, length: nat)

  class PeerConnection {
    var current: Option<InFlight>
    var exclusive: bool
    var peerChoking: bool
    var amInterested: bool

    ghost predicate Valid() reads this {
      && (current.Some? ==> Consistent(current.value))
      && (exclusive ==> current.Some?)
    }

    constructor ()
      ensures Valid() && current == None && peerChoking && !amInterested
    {
      current, exclusive, peerChoking, amInterested := None, false, true, false;
    }

    /** fill_requests. `had` is what have_piece answers for the current piece and `pick` what
        next_needed answers. Returns the requests sent, in order. */
    method FillRequests(had: bool, pick: Option<Pick>) returns (requests: seq<Request>)
      requires Valid()
      requires pick.Some? ==> pick.value.length < TWO32
      modifies this
      ensures Valid() && peerChoking == old(peerChoking) && amInterested == old(amInterested)
      ensures peerChoking || !amInterested ==>
                current == old(current) && exclusive == old(exclusive) && requests == []
      ensures !peerChoking && amInterested && old(current).Some? && !had ==>
                && current == Some(Fill(old(current).value))
                && exclusive == old(exclusive)
                && old(current).value.sent + requests == current.value.sent
      ensures !peerChoking && amInterested && (old(current).None? || had) && pick.None? ==>
                current == None && !exclusive && requests == []
      ensures !peerChoking && amInterested && (old(current).None? || had) && pick.Some? ==>
                && current == Some(Fill(NewClaim(pick.value.index, pick.value.length)))
                && exclusive == pick.value.exclusive
                && requests == current.value.sent
    {
      hide Consistent, Fill, NewClaim, Zeros;
      requests := [];
      if peerChoking || !amInterested { return; }
      if current.Some? && had {
        current, exclusive := None, false;
      }
      if current.None? {
        if pick.None? { return; }
        NewClaimConsistent(pick.value.index, pick.value.length);
        NewClaimSent(pick.value.index, pick.value.length);
        current, exclusive := Some(NewClaim(pick.value.index, pick.value.length)), pick.value.exclusive;
      }
      ghost var start := current.value;
      FillKeeps(start);
      var p := current.value;
      while p.pending < MAX_PIPELINE && p.next < p.length
        invariant Fill(p) == Fill(start)
        invariant start.sent + requests == p.sent
        modifies {}
        decreases p.length - p.next
      {
        var len := Min(BLOCK, p.length - p.next);
        FillStep(p);
        requests := requests + [Request(p.next, len)];
        p := p.(next := p.next + len, pending := p.pending + 1, sent := p.sent + [Request(p.next, len)]);
      }
      FillStop(p);
      current := Some(p);
    }

    /** handle_piece. `verified` is what complete_piece answers. Returns the buffer handed to
        complete_piece and the piece whose claim is released, if any. */
    method HandlePiece(index: nat, b: Block, verified: bool)
      returns (handed: Option<seq<Byte>>, released: Option<nat>)
      requires Valid()
      modifies this
      ensures Valid() && peerChoking == old(peerChoking) && amInterested == old(amInterested)
      ensures old(current).None? || old(current).value.index != index ==>
                current == old(current) && exclusive == old(exclusive) && handed == None && released == None
      ensures old(current).Some? && old(current).value.index == index && !Complete(old(current).value, b) ==>
                && current == Some(Take(old(current).value, b))
                && exclusive == old(exclusive) && handed == None && released == None
      ensures old(current).Some? && old(current).value.index == index && Complete(old(current).value, b) ==>
                && current == None && !exclusive
                && handed == Some(Take(old(current).value, b).data)
                && released == if !verified && old(exclusive) then Some(index) else None
    {
      hide Consistent;
      handed, released := None, None;
      if current.None? || current.value.index != index { return; }
      var p := current.value;
      TakeKeeps(p, b);
      p := p.(pending := (p.pending - 1) % TWO32);
      current := Some(p);
      if b.begin + |b.bytes| > |p.data| { return; }
      var i := b.begin / BLOCK;
      if i >= |p.received| || p.received[i] { return; }
      p := p.(data := Patch(p.data, b.begin, b.bytes), received := p.received[i := true], done := p.done + 1);
      current := Some(p);
      if p.done < p.total { return; }
      handed := Some(p.data);
      if !verified && exclusive {
        released := Some(p.index);
      }
      current, exclusive := None, false;
    }

    /** handle_choke: drops the piece in flight; the claim is released if it was exclusive. */
    method HandleChoke() returns (released: Option<nat>)
      requires Valid()
      modifies this
      ensures Valid() && peerChoking && current == None && !exclusive && amInterested == old(amInterested)
      ensures released == if old(exclusive) then Some(old(current).value.index) else None
    {
      peerChoking := true;
      released := None;
      if current.Some? {
        if exclusive {
          released := Some(current.value.index);
        }
        current, exclusive := None, false;
      }
    }

    method HandleUnchoke()
      requires Valid()
      modifies this`peerChoking
      ensures Valid() && !peerChoking
    {
      peerChoking := false;
    }

    /** The destructor's claim release. */
    method Close() returns (released: Option<nat>)
      requires Valid()
      ensures released == if exclusive then Some(current.value.index) else None
    {
      released := if current.Some? && exclusive then Some(current.value.index) else None;
    }
  }

  lemma NewClaimSent(index: nat, length: nat)
    ensures NewClaim(index, length).sent == [] && NewClaim(index, length).index == index
  {
  }

  lemma FillStep(p: InFlight)
    requires p.pending < MAX_PIPELINE && p.next < p.length
    ensures var len := Min(BLOCK, p.length - p.next);
            Fill(p) == Fill(p.(next := p.next + len, pending := p.pending + 1,
                               sent := p.sent + [Request(p.next, len)]))
  {
  }

  lemma FillStop(p: InFlight)
    requires p.pending >= MAX_PIPELINE || p.next >= p.length
    ensures Fill(p) == p
  {
  }
}
