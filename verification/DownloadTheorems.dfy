/** What the download protocol guarantees in every interleaving of any number of peer threads. */
module DownloadTheorems {
  import opened Common
  import opened Disk
  import opened Download
  import opened DownloadSafety

  // ---------------------------------------------------------------------------
  // Piece lengths
  // ---------------------------------------------------------------------------

  /** The piece count is the total divided by the piece size, rounded up. */
  predicate WellFormedTorrent(c: Config) {
    && ValidLayout(c.layout)
    && c.nominal == c.layout.pieceSize
    && 0 < NumPieces(c) < TWO32
    && (NumPieces(c) - 1) * c.nominal < c.layout.total <= NumPieces(c) * c.nominal
  }

  /** The two independent computations of a piece's length give the same number for a piece. */
  predicate LengthsAgree(c: Config, i: nat) {
    InRange(c.layout, i) && ManagerLength(c, i) == PieceLength(c.layout, i)
  }

  /** They agree on every index exactly when the piece count is the rounded-up quotient, or when
      the missing tail is a multiple of 2^32 bytes, which the 32-bit cast hides. */
  lemma PieceLengthsAgree(c: Config)
    requires ValidLayout(c.layout) && c.nominal == c.layout.pieceSize && 0 < NumPieces(c) < TWO32
    ensures (forall i :: 0 <= i < NumPieces(c) ==> LengthsAgree(c, i)) <==>
            (WellFormedTorrent(c)
             || (NumPieces(c) * c.nominal < c.layout.total
                 && (c.layout.total - NumPieces(c) * c.nominal) % TWO32 == 0))
  {
    hide ValidLayout, LengthsAgree, WellFormedTorrent;
    LastPiece(c);
    if LengthsAgree(c, NumPieces(c) - 1) {
      forall i | 0 <= i < NumPieces(c)
        ensures LengthsAgree(c, i)
      {
        if i < NumPieces(c) - 1 {
          EarlierAgrees(c, i);
        }
      }
    }
  }

  /** Every piece before one that is in range is whole. */
  lemma EarlierAgrees(c: Config, i: nat)
    requires ValidLayout(c.layout) && c.nominal == c.layout.pieceSize && i + 1 < NumPieces(c) < TWO32
    requires LengthsAgree(c, NumPieces(c) - 1)
    ensures LengthsAgree(c, i)
  {
    hide Contiguous, OffsetAt;
    MulStep(i, NumPieces(c) - 1, c.nominal);
  }

  lemma ModShift(a: int, b: nat)
    requires b < TWO32
    ensures a % TWO32 == b <==> (a - b) % TWO32 == 0
  {
    var q := a / TWO32;
    assert a == q * TWO32 + a % TWO32;
  }

  /** The last piece starts at `begin`. */
  lemma LastLength(begin: nat, size: nat, total: nat)
    requires 0 < size < TWO32
    ensures (begin < total && (total - begin) % TWO32 == Min(begin + size, total) - begin) <==>
            (begin < total <= begin + size || (begin + size < total && (total - begin - size) % TWO32 == 0))
  {
    ModShift(total - begin, size);
  }

  lemma LastPiece(c: Config)
    requires ValidLayout(c.layout) && c.nominal == c.layout.pieceSize && 0 < NumPieces(c) < TWO32
    ensures LengthsAgree(c, NumPieces(c) - 1) <==>
            (WellFormedTorrent(c)
             || (NumPieces(c) * c.nominal < c.layout.total
                 && (c.layout.total - NumPieces(c) * c.nominal) % TWO32 == 0))
  {
    hide Contiguous, OffsetAt;
    var n, begin := NumPieces(c), PieceOffset(c.layout, NumPieces(c) - 1);
    assert n * c.nominal == begin + c.nominal;
    assert c.layout.total - begin - c.nominal == c.layout.total - n * c.nominal;
    assert c.nominal * (n - 1) == begin;
    LastLength(begin, c.nominal, c.layout.total);
  }

  lemma LengthAt(c: Config, i: nat)
    requires WellFormedTorrent(c) && i < NumPieces(c)
    ensures i + 1 < NumPieces(c) ==> ManagerLength(c, i) == c.nominal
    ensures i + 1 == NumPieces(c) ==> ManagerLength(c, i) == c.layout.total - i * c.nominal
  {
    hide Contiguous, OffsetAt;
    var begin := (NumPieces(c) - 1) * c.nominal;
    assert NumPieces(c) * c.nominal == begin + c.nominal;
    assert c.nominal * (NumPieces(c) - 1) == begin;
  }

  function Lengths(c: Config, k: nat): (ws: seq<nat>) {
    seq(k, i requires 0 <= i < k => ManagerLength(c, i))
  }

  /** All lengths together are the torrent's total. */
  lemma {:induction false} LengthsSum(c: Config, k: nat)
    requires WellFormedTorrent(c) && k <= NumPieces(c)
    ensures Sum(Lengths(c, k)) == if k < NumPieces(c) then k * c.nominal else c.layout.total
  {
    if k == 0 {
    } else {
      hide ManagerLength, WellFormedTorrent;
      LengthsSum(c, k - 1);
      LengthAt(c, k - 1);
      assert Lengths(c, k)[..k - 1] == Lengths(c, k - 1);
      assert k * c.nominal == (k - 1) * c.nominal + c.nominal;
    }
  }

  // ---------------------------------------------------------------------------
  // Completion
  // ---------------------------------------------------------------------------

  lemma {:induction false} SumOfOnes(n: nat)
    ensures Sum(seq(n, _ => 1)) == n
  {
    if n > 0 {
      SumOfOnes(n - 1);
      assert seq(n, _ => 1)[..n - 1] == seq(n - 1, _ => 1);
    }
  }

  lemma CountBound(c: Config, s: State)
    requires Invariant(c, s)
    ensures s.count <= NumPieces(c)
    ensures s.count == NumPieces(c) ==> forall i :: 0 <= i < NumPieces(c) ==> s.stage[i].Counted?
  {
    hide Flat, ClaimsOk, WritersOk, StagesOk, ConnsOk, ValidLayout, Shaped, Sum;
    var n := NumPieces(c);
    SumOfOnes(n);
    SumMonotone(CountWeights(s.stage), seq(n, _ => 1));
    if s.count == n {
      forall i | 0 <= i < n
        ensures s.stage[i].Counted?
      {
        assert CountWeights(s.stage)[i] == 1;
      }
    }
  }

  lemma AllCounted(c: Config, s: State)
    requires Invariant(c, s) && forall i :: 0 <= i < NumPieces(c) ==> s.stage[i].Counted?
    ensures s.count == NumPieces(c)
  {
    hide Flat, ClaimsOk, WritersOk, StagesOk, ConnsOk, ValidLayout, Shaped, Sum;
    SumOfOnes(NumPieces(c));
    assert CountWeights(s.stage) == seq(NumPieces(c), _ => 1);
  }

  /** is_complete() means that every piece of the concatenated output files hashes to its
      expected SHA-1, after any endgame races and any failed writes. */
  lemma CompleteMeansVerified(c: Config, s: State, actions: seq<Action>)
    requires ValidLayout(c.layout) && Initial(c, s)
    ensures var r := Run(c, s, actions);
            r.count == NumPieces(c) ==>
              && |Flat(r.contents)| == c.layout.total
              && forall i :: 0 <= i < NumPieces(c) ==>
                   InRange(c.layout, i) && c.sha(PieceBytes(c.layout, Flat(r.contents), i)) == c.hashes[i]
  {
    hide Flat, ClaimsOk, WritersOk, ConnsOk, ValidLayout, Shaped, Sum, InRange, PieceBytes, Tallied;
    InitialInvariant(c, s);
    RunKeeps(c, s, actions);
    var r := Run(c, s, actions);
    CountBound(c, r);
    if r.count == NumPieces(c) {
      forall i | 0 <= i < NumPieces(c)
        ensures InRange(c.layout, i) && c.sha(PieceBytes(c.layout, Flat(r.contents), i)) == c.hashes[i]
      {
        assert StageOk(c, r.have[i], r.stage[i], r.conns, Flat(r.contents), i);
      }
    }
  }

  /** No piece is counted twice, the downloaded bytes never exceed the total, and they equal it
      when the download is complete. */
  lemma BytesAreConserved(c: Config, s: State, actions: seq<Action>)
    requires WellFormedTorrent(c) && Initial(c, s)
    ensures var r := Run(c, s, actions);
            && r.count <= NumPieces(c)
            && r.bytes <= c.layout.total
            && (r.count == NumPieces(c) ==> r.bytes == c.layout.total)
  {
    hide Flat, ClaimsOk, WritersOk, ConnsOk, StagesOk, ValidLayout, Shaped, Sum, ManagerLength;
    InitialInvariant(c, s);
    RunKeeps(c, s, actions);
    var r, n := Run(c, s, actions), NumPieces(c);
    CountBound(c, r);
    var all := Lengths(c, n);
    LengthsSum(c, n);
    SumMonotone(ByteWeights(c, r.stage), all);
    if r.count == n {
      assert ByteWeights(c, r.stage) == all;
    }
  }

  /** How often a run passes the two statements that bank and count piece i. */
  function TimesCounted(c: Config, s: State, actions: seq<Action>, i: nat): (n: nat)
    decreases |actions|
  {
    if actions == [] then 0
    else (if Counts(c, s, actions[0], i) then 1 else 0) + TimesCounted(c, Apply(c, s, actions[0]), actions[1..], i)
  }

  /** The action executes the fetch_add on the completed count, for piece i. */
  predicate Counts(c: Config, s: State, a: Action, i: nat) {
    && a.Step? && a.t in s.conns && s.conns[a.t].pc == AddCount && s.conns[a.t].current == Some(i)
  }

  lemma CountsOnce(c: Config, s: State, a: Action, i: nat)
    requires Invariant(c, s) && i < NumPieces(c)
    ensures i < |Apply(c, s, a).stage|
    ensures CountWeight(Apply(c, s, a).stage[i]) == CountWeight(s.stage[i]) + if Counts(c, s, a, i) then 1 else 0
  {
    hide Flat, ClaimsOk, Shaped, Tallied, VisitFile, InRange, PieceLength, PieceOffset, ManagerLength, Offers,
         Progress, ValidLayout, OnDisk, Fits, Patch;
    if a.t in s.conns {
      assert WriterOk(c, s.stage, Flat(s.contents), a.t, s.conns[a.t]);
      assert StageOk(c, s.have[i], s.stage[i], s.conns, Flat(s.contents), i);
      StepCounts(c, s, a.t, i);
    }
    hide StepConn;
  }

  lemma StepCounts(c: Config, s: State, t: nat, i: nat)
    requires ShapeOk(c, s) && t in s.conns && ConnShape(c, s.conns[t]) && i < NumPieces(c)
    requires s.have[i] <==> s.stage[i] != Missing
    requires s.conns[t].current == Some(i) ==>
               match s.conns[t].pc
               case Write(_, _, _) => s.stage[i] == Writing(t)
               case AddBytes => s.stage[i] == Written(t)
               case AddCount => s.stage[i] == Banked(t)
               case _ => true
    ensures i < |StepConn(c, s, t).stage|
    ensures CountWeight(StepConn(c, s, t).stage[i])
            == CountWeight(s.stage[i]) + if s.conns[t].pc == AddCount && s.conns[t].current == Some(i) then 1 else 0
  {
    hide ValidLayout, Shaped, VisitFile, Fits, Patch, ManagerLength, Offers, PieceOffset;
  }

  lemma {:induction false} TimesCountedIs(c: Config, s: State, actions: seq<Action>, i: nat)
    requires Invariant(c, s) && i < NumPieces(c)
    ensures Invariant(c, Run(c, s, actions))
    ensures CountWeight(s.stage[i]) + TimesCounted(c, s, actions, i) == CountWeight(Run(c, s, actions).stage[i])
    decreases |actions|
  {
    hide Apply, Invariant, Counts;
    if actions != [] {
      ApplyKeeps(c, s, actions[0]);
      CountsOnce(c, s, actions[0], i);
      TimesCountedIs(c, Apply(c, s, actions[0]), actions[1..], i);
    }
  }

  /** In any interleaving each piece is counted at most once, and the completed count is the number
      of pieces that were. */
  lemma CountedAtMostOnce(c: Config, s: State, actions: seq<Action>)
    requires ValidLayout(c.layout) && Initial(c, s)
    ensures forall i :: 0 <= i < NumPieces(c) ==> TimesCounted(c, s, actions, i) <= 1
    ensures Run(c, s, actions).count == Sum(seq(NumPieces(c), i requires 0 <= i < NumPieces(c) => TimesCounted(c, s, actions, i)))
  {
    hide Run, Apply, TimesCounted, Flat, ClaimsOk, StagesOk, WritersOk, ConnsOk, Shaped, ValidLayout, Sum;
    InitialInvariant(c, s);
    RunKeeps(c, s, actions);
    var r := Run(c, s, actions);
    forall i | 0 <= i < NumPieces(c)
      ensures TimesCounted(c, s, actions, i) == CountWeight(r.stage[i])
    {
      TimesCountedIs(c, s, actions, i);
    }
    assert CountWeights(r.stage)
        == seq(NumPieces(c), i requires 0 <= i < NumPieces(c) => TimesCounted(c, s, actions, i));
  }

  // ---------------------------------------------------------------------------
  // Claims
  // ---------------------------------------------------------------------------

  /** Each piece has at most one exclusive holder; a piece that is claimed but not had has exactly
      one, and its connection is alive. */
  lemma ClaimsAreExclusive(c: Config, s: State, actions: seq<Action>)
    requires ValidLayout(c.layout) && Initial(c, s)
    ensures var r := Run(c, s, actions);
            && |r.claimed| == |r.have| == NumPieces(c)
            && (forall t: nat, u: nat, i: nat :: t in r.conns && u in r.conns && Holds(r.conns[t], i) && Holds(r.conns[u], i) ==> t == u)
            && (forall i :: 0 <= i < NumPieces(c) && r.claimed[i] && !r.have[i] ==>
                  exists t :: t in r.conns && Holds(r.conns[t], i) && !r.conns[t].pc.Closed?)
  {
    hide Flat, WritersOk, StagesOk, ValidLayout, Shaped, Tallied;
    InitialInvariant(c, s);
    RunKeeps(c, s, actions);
    var r := Run(c, s, actions);
    forall t: nat, u: nat, i: nat | t in r.conns && u in r.conns && Holds(r.conns[t], i) && Holds(r.conns[u], i)
      ensures t == u
    {
      assert ConnShape(c, r.conns[t]);
      assert r.owner[i] == Some(t) && r.owner[i] == Some(u);
    }
    forall i | 0 <= i < NumPieces(c) && r.claimed[i] && !r.have[i]
      ensures exists t :: t in r.conns && Holds(r.conns[t], i) && !r.conns[t].pc.Closed?
    {
      var t := r.owner[i].value;
      assert ConnShape(c, r.conns[t]);
    }
  }

  /** Once every connection is gone, no claim is left on a piece that is still missing. */
  lemma NoClaimLeaks(c: Config, s: State, actions: seq<Action>)
    requires ValidLayout(c.layout) && Initial(c, s)
    requires forall t :: t in Run(c, s, actions).conns ==> Run(c, s, actions).conns[t].pc.Closed?
    ensures var r := Run(c, s, actions);
            && |r.claimed| == |r.have| == NumPieces(c)
            && forall i :: 0 <= i < NumPieces(c) && r.claimed[i] ==> r.have[i]
  {
    hide Run, Initial, ValidLayout;
    ClaimsAreExclusive(c, s, actions);
  }

  // ---------------------------------------------------------------------------
  // The window between `have` and the disk
  // ---------------------------------------------------------------------------

  /** A had piece is on disk, or its one winner is still writing it, or its write failed. */
  lemma HaveWindow(c: Config, s: State, actions: seq<Action>, i: nat)
    requires ValidLayout(c.layout) && Initial(c, s) && i < NumPieces(c)
    ensures var r := Run(c, s, actions);
            && |r.have| == |r.stage| == NumPieces(c) && |Flat(r.contents)| == c.layout.total
            && (r.have[i] ==>
                  || OnDisk(c, Flat(r.contents), i)
                  || (exists t :: t in r.conns && r.conns[t].current == Some(i) && r.conns[t].pc.Write?)
                  || r.stage[i].Lost?)
  {
    hide Flat, ClaimsOk, WritersOk, ConnsOk, ValidLayout, Shaped, Tallied;
    InitialInvariant(c, s);
    RunKeeps(c, s, actions);
    var r := Run(c, s, actions);
    assert StageOk(c, r.have[i], r.stage[i], r.conns, Flat(r.contents), i);
  }

  /** The lengths of the pieces marked as had, and 0 for the others. */
  function HadLengths(c: Config, have: seq<bool>): (ws: seq<nat>) {
    seq(|have|, i requires 0 <= i < |have| => if have[i] then ManagerLength(c, i) else 0)
  }

  lemma LengthPositive(c: Config, i: nat)
    requires WellFormedTorrent(c) && i < NumPieces(c)
    ensures ManagerLength(c, i) > 0
  {
    hide Contiguous, OffsetAt;
    AgreeAt(c, i);
  }

  /** What a caller can check: the downloaded bytes are the lengths of the had pieces exactly when no
      had piece is still being stored or was lost, and then every had piece is on disk. */
  lemma BytesTellOnDisk(c: Config, s: State, actions: seq<Action>)
    requires WellFormedTorrent(c) && Initial(c, s)
    ensures var r := Run(c, s, actions);
            && |r.have| == |r.stage| == NumPieces(c) && |Flat(r.contents)| == c.layout.total
            && r.bytes <= Sum(HadLengths(c, r.have))
            && (r.bytes == Sum(HadLengths(c, r.have)) <==>
                  forall i :: 0 <= i < NumPieces(c) && r.have[i] ==> r.stage[i].Banked? || r.stage[i].Counted?)
            && (r.bytes == Sum(HadLengths(c, r.have)) ==>
                  forall i :: 0 <= i < NumPieces(c) && r.have[i] ==> OnDisk(c, Flat(r.contents), i))
  {
    hide Flat, ClaimsOk, WritersOk, ConnsOk, ValidLayout, Shaped, Sum, OnDisk, ManagerLength, WellFormedTorrent, Run;
    assert ValidLayout(c.layout) by { WellFormedLayout(c); }
    InitialInvariant(c, s);
    RunKeeps(c, s, actions);
    var r := Run(c, s, actions);
    var ws, had := ByteWeights(c, r.stage), HadLengths(c, r.have);
    forall i | 0 <= i < NumPieces(c)
      ensures ws[i] <= had[i]
      ensures ws[i] == had[i] <==> (r.have[i] ==> r.stage[i].Banked? || r.stage[i].Counted?)
      ensures r.have[i] && ws[i] == had[i] ==> OnDisk(c, Flat(r.contents), i)
    {
      LengthPositive(c, i);
      assert StageOk(c, r.have[i], r.stage[i], r.conns, Flat(r.contents), i);
    }
    SumMonotone(ws, had);
    if forall i :: 0 <= i < NumPieces(c) && r.have[i] ==> r.stage[i].Banked? || r.stage[i].Counted? {
      assert ws == had;
    }
  }

  predicate Settled(stage: Stage) {
    stage.Banked? || stage.Counted?
  }

  lemma SettledStays(c: Config, s: State, a: Action, i: nat)
    requires Invariant(c, s) && i < NumPieces(c) && Settled(s.stage[i])
    ensures i < |Apply(c, s, a).stage| && Settled(Apply(c, s, a).stage[i])
  {
    hide Flat, ClaimsOk, StagesOk, Shaped, Tallied, VisitFile, ManagerLength, Progress, ValidLayout, Fits, Patch;
    StageAt(c, s, i);
    if a.t in s.conns {
      assert WriterOk(c, s.stage, Flat(s.contents), a.t, s.conns[a.t]);
      StepSettled(c, s, a.t, i);
    }
    hide StepConn;
  }

  lemma StepSettled(c: Config, s: State, t: nat, i: nat)
    requires ShapeOk(c, s) && t in s.conns && ConnShape(c, s.conns[t]) && i < NumPieces(c)
    requires Settled(s.stage[i]) && s.have[i]
    requires s.conns[t].current == Some(i) && s.conns[t].pc.Write? ==> s.stage[i] == Writing(t)
    ensures i < |StepConn(c, s, t).stage| && Settled(StepConn(c, s, t).stage[i])
  {
    hide ValidLayout, Shaped, VisitFile, Fits, Patch, ManagerLength, Offers, PieceOffset;
  }

  lemma {:induction false} SettledForever(c: Config, s: State, actions: seq<Action>, i: nat)
    requires Invariant(c, s) && i < NumPieces(c) && Settled(s.stage[i])
    ensures var r := Run(c, s, actions); Invariant(c, r) && i < |r.stage| && Settled(r.stage[i])
    decreases |actions|
  {
    assert i < |s.stage|;
    hide Apply, Invariant;
    if actions != [] {
      ApplyKeeps(c, s, actions[0]);
      SettledStays(c, s, actions[0], i);
      SettledForever(c, Apply(c, s, actions[0]), actions[1..], i);
    }
  }

  lemma SettledIsOnDisk(c: Config, s: State, i: nat)
    requires Invariant(c, s) && i < NumPieces(c) && Settled(s.stage[i])
    ensures |Flat(s.contents)| == c.layout.total && OnDisk(c, Flat(s.contents), i)
  {
    hide Flat, ClaimsOk, WritersOk, ConnsOk, ValidLayout, Shaped, Tallied, OnDisk;
    assert StageOk(c, s.have[i], s.stage[i], s.conns, Flat(s.contents), i);
  }

  /** The flags were read one by one between two points of a run. */
  predicate Between(first: seq<bool>, seen: seq<bool>, last: seq<bool>) {
    && |first| == |seen| == |last|
    && (forall i :: 0 <= i < |seen| ==> (first[i] ==> seen[i]) && (seen[i] ==> last[i]))
  }

  /** A caller that reads the byte counter first and then the flags, in its own time: if the bytes are
      the lengths of the pieces seen as had, every one of them is on disk. */
  lemma SeenIsOnDisk(c: Config, s: State, before: seq<Action>, more: seq<Action>, seen: seq<bool>)
    requires WellFormedTorrent(c) && Initial(c, s)
    requires Between(Run(c, s, before).have, seen, Run(c, Run(c, s, before), more).have)
    requires Run(c, s, before).bytes == Sum(HadLengths(c, seen))
    ensures var r := Run(c, Run(c, s, before), more);
            && |seen| == NumPieces(c) && |Flat(r.contents)| == c.layout.total
            && forall i :: 0 <= i < |seen| && seen[i] ==> OnDisk(c, Flat(r.contents), i)
  {
    hide Flat, Invariant, ValidLayout, Sum, OnDisk, ManagerLength, WellFormedTorrent, Run, Initial, HadLengths;
    WellFormedLayout(c);
    InitialInvariant(c, s);
    RunKeeps(c, s, before);
    var r1 := Run(c, s, before);
    RunKeeps(c, r1, more);
    var r := Run(c, r1, more);
    BytesTellOnDisk(c, s, before);
    SeenAreFirst(c, r1.have, seen);
    RunTotal(c, r);
    forall i | 0 <= i < |seen| && seen[i]
      ensures OnDisk(c, Flat(r.contents), i)
    {
      assert Settled(r1.stage[i]);
      SettledForever(c, r1, more, i);
      SettledIsOnDisk(c, r, i);
    }
  }

  lemma RunTotal(c: Config, s: State)
    requires Invariant(c, s)
    ensures |Flat(s.contents)| == c.layout.total
  {
  }

  /** More flags mean more bytes. */
  lemma SeenAreFirst(c: Config, first: seq<bool>, seen: seq<bool>)
    requires WellFormedTorrent(c) && |first| == |seen| == NumPieces(c)
    requires forall i :: 0 <= i < |seen| && first[i] ==> seen[i]
    ensures Sum(HadLengths(c, first)) <= Sum(HadLengths(c, seen))
    ensures Sum(HadLengths(c, first)) == Sum(HadLengths(c, seen)) ==> first == seen
  {
    hide ManagerLength, WellFormedTorrent, Sum;
    var a, b := HadLengths(c, first), HadLengths(c, seen);
    forall i | 0 <= i < NumPieces(c)
      ensures a[i] <= b[i] && (a[i] == b[i] ==> first[i] == seen[i])
    {
      LengthPositive(c, i);
    }
    SumMonotone(a, b);
  }

  lemma WellFormedLayout(c: Config)
    requires WellFormedTorrent(c)
    ensures ValidLayout(c.layout)
  {
  }

  lemma LostStaysLost(c: Config, s: State, a: Action, i: nat)
    requires Invariant(c, s) && i < NumPieces(c) && s.stage[i].Lost?
    ensures i < |Apply(c, s, a).stage| && Apply(c, s, a).stage[i].Lost?
  {
    hide Flat, ClaimsOk, StagesOk, Shaped, Tallied, VisitFile, InRange, PieceLength, PieceOffset, ManagerLength, Offers,
         Progress, ValidLayout;
    if a.t in s.conns {
      assert WriterOk(c, s.stage, Flat(s.contents), a.t, s.conns[a.t]);
      if s.conns[a.t].pc.TryHave? {
        assert s.have[i] by { StageAt(c, s, i); }
      }
    }
  }

  lemma StageAt(c: Config, s: State, i: nat)
    requires Invariant(c, s) && i < NumPieces(c)
    ensures s.have[i] <==> s.stage[i] != Missing
  {
    hide Flat, ClaimsOk, WritersOk, ConnsOk, ValidLayout, Shaped, Tallied, OnDisk;
    assert StageOk(c, s.have[i], s.stage[i], s.conns, Flat(s.contents), i);
  }

  lemma {:induction false} LostForever(c: Config, s: State, actions: seq<Action>, i: nat)
    requires Invariant(c, s) && i < NumPieces(c) && s.stage[i].Lost?
    ensures var r := Run(c, s, actions);
            Invariant(c, r) && i < |r.stage| && r.stage[i].Lost? && r.count < NumPieces(c)
    decreases |actions|
  {
    assert i < |s.stage|;
    hide Apply, Invariant;
    if actions == [] {
      CountBound(c, s);
    } else {
      ApplyKeeps(c, s, actions[0]);
      LostStaysLost(c, s, actions[0], i);
      LostForever(c, Apply(c, s, actions[0]), actions[1..], i);
    }
  }

  /** The action makes write_piece throw: its thread was writing piece i and is now being unwound. */
  predicate Throws(c: Config, s: State, a: Action, i: nat) {
    && a.t in s.conns && s.conns[a.t].pc.Write? && s.conns[a.t].current == Some(i)
    && var r := Apply(c, s, a);
       a.t in r.conns && !r.conns[a.t].pc.Write? && !r.conns[a.t].pc.AddBytes?
  }

  lemma ThrowLoses(c: Config, s: State, a: Action, i: nat)
    requires Invariant(c, s) && Throws(c, s, a, i)
    ensures i < NumPieces(c) && i < |Apply(c, s, a).stage| && Apply(c, s, a).stage[i].Lost?
  {
    hide Flat, ClaimsOk, WritersOk, StagesOk, Shaped, Tallied, VisitFile, InRange, PieceLength, PieceOffset,
         ManagerLength, ValidLayout, Patch, Fits;
    assert ConnShape(c, s.conns[a.t]);
  }

  /** A write that throws, for whatever reason, is final: whatever happens afterwards the piece stays
      marked as had, nobody ever writes it again, and is_complete() never holds. */
  lemma FailedWriteIsFinal(c: Config, s: State, before: seq<Action>, a: Action, after: seq<Action>, i: nat)
    requires ValidLayout(c.layout) && Initial(c, s) && Throws(c, Run(c, s, before), a, i)
    ensures var r := Run(c, Apply(c, Run(c, s, before), a), after);
            && r.count < NumPieces(c)
            && i < |r.have| && r.have[i]
            && forall t :: t in r.conns && r.conns[t].pc.Write? ==> r.conns[t].current != Some(i)
  {
    hide Run, Apply, Throws, Invariant, Initial, ValidLayout;
    InitialInvariant(c, s);
    RunKeeps(c, s, before);
    var s1 := Run(c, s, before);
    var s2 := Apply(c, s1, a);
    ThrowLoses(c, s1, a, i);
    ApplyKeeps(c, s1, a);
    LostForever(c, s2, after, i);
    LostIsHad(c, Run(c, s2, after), i);
  }

  lemma LostIsHad(c: Config, s: State, i: nat)
    requires Invariant(c, s) && i < NumPieces(c) && s.stage[i].Lost?
    ensures i < |s.have| && s.have[i]
    ensures forall t :: t in s.conns && s.conns[t].pc.Write? ==> s.conns[t].current != Some(i)
  {
    hide Flat, ClaimsOk, StagesOk, ValidLayout, Shaped, Tallied, Progress;
    StageAt(c, s, i);
    forall t | t in s.conns && s.conns[t].pc.Write?
      ensures s.conns[t].current != Some(i)
    {
      assert WriterOk(c, s.stage, Flat(s.contents), t, s.conns[t]);
    }
  }

  // ---------------------------------------------------------------------------
  // Without I/O errors the completed count is exact
  // ---------------------------------------------------------------------------

  /** No I/O error, and the buffer handed over has the length fill_requests allocated. */
  predicate CleanAction(c: Config, s: State, a: Action) {
    && !a.WriteFails?
    && (a.Receive? && a.event.Deliver? && a.t in s.conns && s.conns[a.t].current.Some? ==>
          |a.event.data| == ManagerLength(c, s.conns[a.t].current.value))
  }

  predicate CleanRun(c: Config, s: State, actions: seq<Action>)
    decreases |actions|
  {
    actions == [] || (CleanAction(c, s, actions[0]) && CleanRun(c, Apply(c, s, actions[0]), actions[1..]))
  }

  predicate Sized(c: Config, conn: Conn) {
    (conn.pc.Enter? || conn.pc.TryHave? || conn.pc.Write?) && conn.current.Some? ==>
      Fits(c, conn.current.value, conn.pc.data)
  }

  ghost predicate NothingLost(c: Config, s: State) {
    && (forall i :: 0 <= i < |s.stage| ==> !s.stage[i].Lost?)
    && (forall t :: t in s.conns ==> Sized(c, s.conns[t]))
  }

  lemma CleanWrite(c: Config, s: State, t: nat)
    requires Invariant(c, s) && NothingLost(c, s) && t in s.conns && s.conns[t].pc.Write?
    ensures NothingLost(c, StepConn(c, s, t))
  {
    hide Flat, ClaimsOk, StagesOk, Shaped, Tallied, VisitFile, InRange, PieceLength, PieceOffset, ManagerLength,
         Contiguous, OffsetAt;
    var Write(data, k, pos) := s.conns[t].pc;
    assert WriterOk(c, s.stage, Flat(s.contents), t, s.conns[t]);
    assert Sized(c, s.conns[t]);
    if pos < |data| {
      ChunkProgress(c, s, t, data, k, pos);
    }
  }

  lemma AgreeAt(c: Config, i: nat)
    requires WellFormedTorrent(c) && i < NumPieces(c)
    ensures LengthsAgree(c, i)
  {
    PieceLengthsAgree(c);
    hide WellFormedTorrent, LengthsAgree;
  }

  lemma CleanStepShape(c: Config, s: State, t: nat)
    requires ShapeOk(c, s) && t in s.conns && ConnShape(c, s.conns[t]) && Sized(c, s.conns[t])
    requires !s.conns[t].pc.Write?
    ensures var r := StepConn(c, s, t);
            && (forall u :: u in r.conns && u != t ==> u in s.conns && r.conns[u] == s.conns[u])
            && t in r.conns && Sized(c, r.conns[t])
  {
    hide Shaped, InRange, PieceLength, ManagerLength, ValidLayout, WriteStep, Offers, Fits;
    match s.conns[t].pc
    case Enter(data) =>
    case TryHave(data) =>
    case TryClaim(i) =>
    case AddBytes =>
    case AddCount =>
    case Endgame(i) =>
    case _ =>
  }

  lemma CleanStepStage(c: Config, s: State, t: nat)
    requires ShapeOk(c, s) && t in s.conns && ConnShape(c, s.conns[t]) && !s.conns[t].pc.Write?
    requires forall i :: 0 <= i < |s.stage| ==> !s.stage[i].Lost?
    ensures var r := StepConn(c, s, t);
            forall i :: 0 <= i < |r.stage| ==> !r.stage[i].Lost?
  {
    hide Shaped, InRange, PieceLength, ManagerLength, ValidLayout, WriteStep, Offers, Fits;
  }

  lemma CleanStepConn(c: Config, s: State, t: nat)
    requires Invariant(c, s) && NothingLost(c, s) && t in s.conns
    ensures NothingLost(c, StepConn(c, s, t))
  {
    hide Flat, ClaimsOk, WritersOk, StagesOk, Shaped, Tallied, ValidLayout, StepConn, Sized, ConnShape;
    assert ConnShape(c, s.conns[t]) && Sized(c, s.conns[t]);
    if s.conns[t].pc.Write? {
      CleanWrite(c, s, t);
    } else {
      CleanStepShape(c, s, t);
      CleanStepStage(c, s, t);
    }
  }

  lemma CleanStep(c: Config, s: State, a: Action)
    requires WellFormedTorrent(c) && Invariant(c, s) && NothingLost(c, s) && CleanAction(c, s, a)
    ensures NothingLost(c, Apply(c, s, a))
  {
    hide Flat, ClaimsOk, WritersOk, StagesOk, Shaped, Tallied, InRange, PieceLength, ManagerLength, ValidLayout,
         WellFormedTorrent, WriteFault, StepConn;
    if a.t in s.conns {
      var conn := s.conns[a.t];
      assert ConnShape(c, conn) && Sized(c, conn);
      if conn.current.Some? {
        AgreeAt(c, conn.current.value);
      }
      CleanStepConn(c, s, a.t);
    }
  }

  lemma {:induction false} CleanRunKeeps(c: Config, s: State, actions: seq<Action>)
    requires WellFormedTorrent(c) && Invariant(c, s) && NothingLost(c, s) && CleanRun(c, s, actions)
    ensures NothingLost(c, Run(c, s, actions))
    decreases |actions|
  {
    hide Apply, Invariant, NothingLost, WellFormedTorrent;
    if actions != [] {
      ApplyKeeps(c, s, actions[0]);
      CleanStep(c, s, actions[0]);
      CleanRunKeeps(c, Apply(c, s, actions[0]), actions[1..]);
    }
  }

  /** With no I/O error, whenever no thread is between setting `have` and counting, is_complete()
      holds exactly when every piece is had. */
  lemma CompletionIsExact(c: Config, s: State, actions: seq<Action>)
    requires WellFormedTorrent(c) && Initial(c, s) && CleanRun(c, s, actions)
    requires forall t :: t in Run(c, s, actions).conns ==> !Busy(Run(c, s, actions).conns[t].pc)
    ensures var r := Run(c, s, actions);
            && |r.have| == NumPieces(c)
            && (r.count == NumPieces(c) <==> forall i :: 0 <= i < NumPieces(c) ==> r.have[i])
  {
    hide Flat, ClaimsOk, WritersOk, ConnsOk, Shaped, ManagerLength, InRange, ValidLayout, OnDisk, Sum, CleanRun;
    InitialInvariant(c, s);
    RunKeeps(c, s, actions);
    CleanRunKeeps(c, s, actions);
    var r, n := Run(c, s, actions), NumPieces(c);
    CountBound(c, r);
    forall i | 0 <= i < n
      ensures r.have[i] <==> r.stage[i].Counted?
    {
      assert StageOk(c, r.have[i], r.stage[i], r.conns, Flat(r.contents), i);
    }
    if forall i :: 0 <= i < n ==> r.have[i] {
      AllCounted(c, r);
    }
  }

  // ---------------------------------------------------------------------------
  // `have` alone does not mean "on disk"
  // ---------------------------------------------------------------------------

  /** One piece of one byte, with the identity in place of SHA-1. */
  function TinyConfig(): (c: Config) {
    Config(Layout(1, 1, [FileEntry(1, 0)]), 1, [[7]], bytes => bytes)
  }

  function TinyState(claimed: bool, conn: Conn): (s: State) {
    State([false], [claimed], 0, 0, [[0]], map[0 := conn], [Missing], [if claimed then Some(0) else None])
  }

  lemma TinyInitial()
    ensures ValidLayout(TinyConfig().layout)
    ensures Initial(TinyConfig(), State([false], [false], 0, 0, [[0]], map[], [Missing], [None]))
  {
    var files := [FileEntry(1, 0)];
    assert OffsetAt(files, 1) == OffsetAt(files, 0) + 1;
  }

  lemma TinyClaim()
    ensures var c := TinyConfig();
            var s := State([false], [false], 0, 0, [[0]], map[], [Missing], [None]);
            && Apply(c, s, Connect(0)) == TinyState(false, Conn(Idle, [false], None, false))
            && Apply(c, TinyState(false, Conn(Idle, [false], None, false)), Receive(0, Announce(0)))
               == TinyState(false, Conn(Idle, [true], None, false))
            && Apply(c, TinyState(false, Conn(Idle, [true], None, false)), Receive(0, Fill))
               == TinyState(false, Conn(Scan(0), [true], None, false))
  {
    TinyInitial();
    hide ValidLayout, OffsetAt;
    assert NewConn(TinyConfig()).bitfield == [false];
    assert [false][0 := true] == [true];
  }

  lemma TinyDownload()
    ensures var c := TinyConfig();
            && Apply(c, TinyState(false, Conn(Scan(0), [true], None, false)), Step(0))
               == TinyState(false, Conn(TryClaim(0), [true], None, false))
            && Apply(c, TinyState(false, Conn(TryClaim(0), [true], None, false)), Step(0))
               == TinyState(true, Conn(Idle, [true], Some(0), true))
  {
    TinyInitial();
    hide ValidLayout, OffsetAt, Handle, WriteFault, WriteStep;
  }

  lemma TinyDeliver()
    ensures var c := TinyConfig();
            && Apply(c, TinyState(true, Conn(Idle, [true], Some(0), true)), Receive(0, Deliver([7])))
               == TinyState(true, Conn(Enter([7]), [true], Some(0), true))
            && Apply(c, TinyState(true, Conn(Enter([7]), [true], Some(0), true)), Step(0))
               == TinyState(true, Conn(TryHave([7]), [true], Some(0), true))
  {
    TinyInitial();
    hide ValidLayout, OffsetAt, WriteFault, WriteStep;
  }

  lemma TinyDisk()
    ensures |Flat([[0]])| == 1 && !OnDisk(TinyConfig(), Flat([[0]]), 0)
  {
    assert Flat([[0]]) == [0];
    assert PieceBytes(TinyConfig().layout, [0], 0) == [0];
  }

  lemma Unroll(c: Config, s: State, a: Action, rest: seq<Action>)
    ensures Run(c, s, [a] + rest) == Run(c, Apply(c, s, a), rest)
  {
    assert ([a] + rest)[1..] == rest;
  }

  lemma TinyRun()
    ensures var c, s := TinyConfig(), State([false], [false], 0, 0, [[0]], map[], [Missing], [None]);
            exists actions :: Run(c, s, actions)
              == Apply(c, TinyState(true, Conn(TryHave([7]), [true], Some(0), true)), Step(0))
  {
    hide Apply, Run, TinyConfig, TinyState;
    TinyClaim();
    TinyDownload();
    TinyDeliver();
    var c, s := TinyConfig(), State([false], [false], 0, 0, [[0]], map[], [Missing], [None]);
    var s7 := TinyState(true, Conn(TryHave([7]), [true], Some(0), true));
    var a7: seq<Action> := [Step(0)] + [];
    var a6 := [Step(0)] + a7;
    var a5 := [Receive(0, Deliver([7]))] + a6;
    var a4 := [Step(0)] + a5;
    var a3 := [Step(0)] + a4;
    var a2 := [Receive(0, Fill)] + a3;
    var a1 := [Receive(0, Announce(0))] + a2;
    Unroll(c, s, Connect(0), a1);
    Unroll(c, TinyState(false, Conn(Idle, [false], None, false)), Receive(0, Announce(0)), a2);
    Unroll(c, TinyState(false, Conn(Idle, [true], None, false)), Receive(0, Fill), a3);
    Unroll(c, TinyState(false, Conn(Scan(0), [true], None, false)), Step(0), a4);
    Unroll(c, TinyState(false, Conn(TryClaim(0), [true], None, false)), Step(0), a5);
    Unroll(c, TinyState(true, Conn(Idle, [true], Some(0), true)), Receive(0, Deliver([7])), a6);
    Unroll(c, TinyState(true, Conn(Enter([7]), [true], Some(0), true)), Step(0), a7);
    Unroll(c, s7, Step(0), []);
    assert Run(c, Apply(c, s7, Step(0)), []) == Apply(c, s7, Step(0)) by { RunNothing(c, Apply(c, s7, Step(0))); }
    assert Run(c, s, [Connect(0)] + a1) == Apply(c, s7, Step(0));
  }

  lemma RunNothing(c: Config, s: State)
    ensures Run(c, s, []) == s
  {
  }

  /** `have` alone does not mean "verified and on disk": a thread that has just set `have` and not
      yet written leaves a state in which the piece is advertised and its byte is still zero. */
  lemma HaveBeforeDisk()
    ensures exists c: Config, s: State, actions: seq<Action> ::
              && ValidLayout(c.layout) && Initial(c, s) && NumPieces(c) == 1
              && var r := Run(c, s, actions);
                 r.have == [true] && |Flat(r.contents)| == c.layout.total && !OnDisk(c, Flat(r.contents), 0)
  {
    hide Run, Apply, Flat, OnDisk, ValidLayout, Initial, TinyState;
    TinyInitial();
    TinyRun();
    TinyWins();
    TinyDisk();
  }

  /** The state in which the tiny run is about to write. */
  function TinyWriting(): (s: State) {
    State([true], [true], 0, 0, [[0]], map[0 := Conn(Write([7], 0, 0), [true], Some(0), true)], [Writing(0)], [Some(0)])
  }

  lemma TinyWins()
    ensures Apply(TinyConfig(), TinyState(true, Conn(TryHave([7]), [true], Some(0), true)), Step(0)) == TinyWriting()
  {
    TinyInitial();
    hide ValidLayout, OffsetAt;
  }

  lemma TinyShape()
    ensures ShapeOk(TinyConfig(), TinyWriting()) && ConnShape(TinyConfig(), TinyWriting().conns[0])
  {
    TinyInitial();
    hide ValidLayout, OffsetAt;
  }

  lemma TinyPiece()
    ensures PieceOffset(TinyConfig().layout, 0) == 0 && Fits(TinyConfig(), 0, [7])
  {
    assert PieceOffset(TinyConfig().layout, 0) == 0;
  }

  lemma TinyVisit()
    ensures VisitFile(TinyConfig().layout.files[0], 0, 1) == Touch(0, 1)
  {
  }

  lemma TinyFault()
    ensures Throws(TinyConfig(), TinyWriting(), WriteFails(0, []), 0)
  {
    TinyShape();
    TinyPiece();
    TinyVisit();
    hide ShapeOk, ConnShape, VisitFile, Fits, StepConn, Handle, PieceOffset;
    var c, s := TinyConfig(), TinyWriting();
    assert WriteFault(c, s, 0, 0, [7], 0, 0, []) == Fail(s, 0, 0);
  }

  /** A write can throw in a run that starts from nothing. */
  lemma WriteCanThrow()
    ensures exists c: Config, s: State, actions: seq<Action>, a: Action ::
              ValidLayout(c.layout) && Initial(c, s) && Throws(c, Run(c, s, actions), a, 0)
  {
    hide Run, Apply, ValidLayout, Initial, TinyState, Throws, TinyConfig;
    TinyInitial();
    TinyRun();
    TinyWins();
    TinyFault();
  }
}
