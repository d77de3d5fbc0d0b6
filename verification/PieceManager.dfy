/** The piece manager as the object one thread sees when no other interferes
    (src/peer_wire/piece_manager.cpp); module Download has the interleavings. */
module Pieces {
  import opened Common
  import opened Disk
  import opened Download
  import opened DownloadSafety
  import opened DownloadTheorems

  // ---------------------------------------------------------------------------
  // Choosing a piece
  // ---------------------------------------------------------------------------

  datatype Pick = Exclusive(index: nat) | Shared(index: nat) | Nothing

  predicate Wanted(have: seq<bool>, bits: seq<bool>, i: nat)
    requires i < |have|
  {
    i < |bits| && bits[i] && !have[i]
  }

  /** The lowest wanted piece nobody has claimed; failing that the lowest wanted piece at all. */
  ghost predicate GoodPick(have: seq<bool>, claimed: seq<bool>, bits: seq<bool>, pick: Pick)
    requires |have| == |claimed|
  {
    match pick
    case Exclusive(i) =>
      && i < |have| && Wanted(have, bits, i) && !claimed[i]
      && (forall j :: 0 <= j < i && Wanted(have, bits, j) ==> claimed[j])
    case Shared(i) =>
      && i < |have| && Wanted(have, bits, i)
      && (forall j :: 0 <= j < i ==> !Wanted(have, bits, j))
      && (forall j :: 0 <= j < |have| && Wanted(have, bits, j) ==> claimed[j])
    case Nothing => forall j :: 0 <= j < |have| ==> !Wanted(have, bits, j)
  }

  /** A good pick is the only one. */
  lemma PickIsUnique(have: seq<bool>, claimed: seq<bool>, bits: seq<bool>, p: Pick, q: Pick)
    requires |have| == |claimed| && GoodPick(have, claimed, bits, p) && GoodPick(have, claimed, bits, q)
    ensures p == q
  {
  }

  /** The state a connection is in after a pick. */
  function AfterPick(s: State, t: nat, pick: Pick): (r: State)
    requires t in s.conns && (pick.Exclusive? ==> pick.index < |s.claimed| && pick.index < |s.owner|)
  {
    var conn := s.conns[t];
    match pick
    case Exclusive(i) =>
      Download.Put(s, t, conn.(pc := Idle, current := Some(i), exclusive := true)).(
        claimed := s.claimed[i := true], owner := s.owner[i := Some(t)])
    case Shared(i) => Download.Put(s, t, conn.(pc := Idle, current := Some(i), exclusive := false))
    case Nothing => Download.Put(s, t, conn.(pc := Idle))
  }

  lemma PickAfterGoto(s: State, t: nat, pc: Pc, pick: Pick)
    requires t in s.conns && (pick.Exclusive? ==> pick.index < |s.claimed| && pick.index < |s.owner|)
    ensures AfterPick(Goto(s, t, pc), t, pick) == AfterPick(s, t, pick)
  {
    var r := AfterPick(s, t, pick);
    assert s.conns[t := s.conns[t].(pc := pc)][t := r.conns[t]] == s.conns[t := r.conns[t]];
  }

  function Steps(t: nat, k: nat): (actions: seq<Action>) {
    if k == 0 then [] else [Step(t)] + Steps(t, k - 1)
  }

  lemma OneMore(c: Download.Config, s: State, t: nat, k: nat)
    requires ShapeOk(c, s) && t in s.conns && ConnShape(c, s.conns[t])
    ensures Run(c, s, Steps(t, k + 1)) == Run(c, StepConn(c, s, t), Steps(t, k))
  {
    assert Steps(t, k + 1)[1..] == Steps(t, k);
  }

  /** The first loop of next_needed, left alone from piece i on. */
  lemma {:induction false} ScanAlone(c: Download.Config, s: State, t: nat) returns (k: nat, pick: Pick)
    requires ShapeOk(c, s) && t in s.conns && ConnShape(c, s.conns[t]) && !s.conns[t].exclusive
    requires s.conns[t].pc.Scan? && s.conns[t].pc.i <= NumPieces(c)
    requires forall j :: 0 <= j < s.conns[t].pc.i && Wanted(s.have, s.conns[t].bitfield, j) ==> s.claimed[j]
    ensures GoodPick(s.have, s.claimed, s.conns[t].bitfield, pick)
    ensures Run(c, s, Steps(t, k)) == AfterPick(s, t, pick)
    decreases NumPieces(c) - s.conns[t].pc.i
  {
    hide Run, ValidLayout, Shaped;
    var conn := s.conns[t];
    var i := conn.pc.i;
    if i == NumPieces(c) {
      var s1 := Goto(s, t, Endgame(0));
      k, pick := EndgameAlone(c, s1, t);
      PickAfterGoto(s, t, s1.conns[t].pc, pick);
      OneMore(c, s, t, k);
      k := k + 1;
    } else if !Offers(conn, i) || s.have[i] {
      var s1 := Goto(s, t, Scan(i + 1));
      k, pick := ScanAlone(c, s1, t);
      PickAfterGoto(s, t, s1.conns[t].pc, pick);
      OneMore(c, s, t, k);
      k := k + 1;
    } else {
      var s1 := Goto(s, t, TryClaim(i));
      if s.claimed[i] {
        var s2 := Goto(s1, t, Scan(i + 1));
        k, pick := ScanAlone(c, s2, t);
        PickAfterGoto(s1, t, Scan(i + 1), pick);
        PickAfterGoto(s, t, TryClaim(i), pick);
        OneMore(c, s1, t, k);
        OneMore(c, s, t, k + 1);
        k := k + 2;
      } else {
        pick := Exclusive(i);
        PickAfterGoto(s, t, TryClaim(i), pick);
        NoMore(c, AfterPick(s, t, pick), t);
        OneMore(c, s1, t, 0);
        OneMore(c, s, t, 1);
        k := 2;
      }
    }
  }

  lemma NoMore(c: Download.Config, s: State, t: nat)
    ensures Run(c, s, Steps(t, 0)) == s
  {
  }

  lemma {:induction false} EndgameAlone(c: Download.Config, s: State, t: nat) returns (k: nat, pick: Pick)
    requires ShapeOk(c, s) && t in s.conns && ConnShape(c, s.conns[t]) && !s.conns[t].exclusive
    requires s.conns[t].pc.Endgame? && s.conns[t].pc.i <= NumPieces(c)
    requires forall j :: 0 <= j < NumPieces(c) && Wanted(s.have, s.conns[t].bitfield, j) ==> s.claimed[j]
    requires forall j :: 0 <= j < s.conns[t].pc.i ==> !Wanted(s.have, s.conns[t].bitfield, j)
    ensures !pick.Exclusive? && GoodPick(s.have, s.claimed, s.conns[t].bitfield, pick)
    ensures Run(c, s, Steps(t, k)) == AfterPick(s, t, pick)
    decreases NumPieces(c) - s.conns[t].pc.i
  {
    hide Run, ValidLayout, Shaped;
    var conn := s.conns[t];
    var i := conn.pc.i;
    if i == NumPieces(c) {
      pick := Nothing;
      NoMore(c, AfterPick(s, t, pick), t);
      OneMore(c, s, t, 0);
      k := 1;
    } else if !Offers(conn, i) || s.have[i] {
      var s1 := Goto(s, t, Endgame(i + 1));
      k, pick := EndgameAlone(c, s1, t);
      PickAfterGoto(s, t, s1.conns[t].pc, pick);
      OneMore(c, s, t, k);
      k := k + 1;
    } else {
      pick := Shared(i);
      NoMore(c, AfterPick(s, t, pick), t);
      OneMore(c, s, t, 0);
      k := 1;
    }
  }

  // ---------------------------------------------------------------------------
  // The object
  // ---------------------------------------------------------------------------

  /** OutsideBuffer is the copy past the end of the piece just read, which has no defined result. */
  datatype PieceError = NoSuchPiece | NotAvailable | OutOfBounds | OutsideBuffer | DiskFailed(error: DiskError)

  ghost predicate IoFails(l: Layout, index: nat, io: nat -> Io)
    requires InRange(l, index)
  {
    exists k :: 0 <= k < |l.files| && Touched(l, index, k) && !io(k).Good?
  }

  /** The error a read of a piece ends in, if any. */
  ghost function ReadError(preallocated: bool, l: Layout, index: nat, io: nat -> Io): (e: Option<DiskError>)
    ensures e.None? ==> InRange(l, index)
  {
    if !preallocated then Some(NotPreallocated)
    else if !InRange(l, index) then Some(IndexOutOfRange)
    else if IoFails(l, index, io) then Some(IoFailure)
    else None
  }

  /** The error a write of a piece ends in, if any. */
  ghost function WriteError(preallocated: bool, l: Layout, index: nat, data: seq<Byte>, io: nat -> Io): (e: Option<DiskError>) {
    if !preallocated then Some(NotPreallocated)
    else if !InRange(l, index) then Some(IndexOutOfRange)
    else if |data| != PieceLength(l, index) then Some(SizeMismatch)
    else if IoFails(l, index, io) then Some(IoFailure)
    else None
  }

  class PieceManager {
    const config: Download.Config
    const have: array<bool>
    const claimed: array<bool>
    const disk: DiskWriter
    var bytes: nat
    var count: nat
    var failures: nat
    ghost var lost: set<nat>     // pieces whose write failed

    ghost predicate Valid()
      reads this, have, claimed, disk
    {
      && have.Length == NumPieces(config) && claimed.Length == NumPieces(config) && have != claimed
      && disk.layout == config.layout && disk.Valid()
    }

    /** Every piece marked as had, unless its write failed, is on disk with the right hash. */
    ghost predicate Stored()
      reads this, have, claimed, disk
      requires Valid()
    {
      && (disk.preallocated ==> |Flat(disk.contents)| == config.layout.total)
      && forall i :: 0 <= i < have.Length && have[i] && i !in lost ==>
           disk.preallocated && OnDisk(config, Flat(disk.contents), i)
    }

    constructor (c: Download.Config, writer: DiskWriter)
      requires writer.layout == c.layout && writer.Valid()
      ensures Valid() && Stored() && config == c && disk == writer && fresh(have) && fresh(claimed)
      ensures bytes == 0 && count == 0 && failures == 0 && lost == {}
      ensures forall i :: 0 <= i < have.Length ==> !have[i] && !claimed[i]
    {
      config, disk := c, writer;
      have := new bool[NumPieces(c)](_ => false);
      claimed := new bool[NumPieces(c)](_ => false);
      bytes, count, failures, lost := 0, 0, 0, {};
      new;
      if disk.preallocated {
        FlatTotal(config.layout, disk.contents);
      }
    }

    method NextNeeded(bits: seq<bool>) returns (pick: Pick)
      requires Valid()
      modifies claimed
      ensures Valid() && GoodPick(have[..], old(claimed[..]), bits, pick)
      ensures claimed[..] == if pick.Exclusive? then old(claimed[..])[pick.index := true] else old(claimed[..])
    {
      var n := NumPieces(config);
      for i := 0 to n
        invariant Valid() && claimed[..] == old(claimed[..])
        invariant forall j :: 0 <= j < i && Wanted(have[..], bits, j) ==> claimed[j]
      {
        if i >= |bits| || !bits[i] || have[i] {
          continue;
        }
        if !claimed[i] {
          claimed[i] := true;
          return Exclusive(i);
        }
      }
      for i := 0 to n
        invariant Valid() && claimed[..] == old(claimed[..])
        invariant forall j :: 0 <= j < n && Wanted(have[..], bits, j) ==> claimed[j]
        invariant forall j :: 0 <= j < i ==> !Wanted(have[..], bits, j)
      {
        if i >= |bits| || !bits[i] || have[i] {
          continue;
        }
        return Shared(i);
      }
      return Nothing;
    }

    /** The result says whether the piece is done; a failed write throws after the piece was marked. */
    method CompletePiece(index: nat, data: seq<Byte>, io: nat -> Io) returns (r: Result<bool, PieceError>)
      requires Valid() && Stored()
      modifies this`bytes, this`count, this`failures, this`lost, have, disk`contents
      ensures Valid() && Stored()
      ensures r == Err(NoSuchPiece) <==> index >= have.Length
      ensures index >= have.Length || old(have[..])[index] || config.sha(data) != config.hashes[index]
              ==> have[..] == old(have[..]) && bytes == old(bytes) && count == old(count) && disk.contents == old(disk.contents)
      ensures index < have.Length && !old(have[..])[index] && config.sha(data) == config.hashes[index]
              ==> have[..] == old(have[..])[index := true]
      ensures index < have.Length && old(have[..])[index] ==> r == Ok(true)
      ensures index < have.Length && !old(have[..])[index] && config.sha(data) == config.hashes[index]
              ==> match WriteError(disk.preallocated, config.layout, index, data, io)
                  case None => r == Ok(true)
                  case Some(e) => r == Err(DiskFailed(e))
      ensures failures == if r == Ok(false) then old(failures) + 1 else old(failures)
      ensures forall i :: i != index ==> (i in lost <==> i in old(lost))
      ensures index < have.Length && !old(have[..])[index] && r == Ok(true)
              ==> bytes == old(bytes) + ManagerLength(config, index) && count == old(count) + 1 && index !in lost
                  && InRange(config.layout, index) && |Flat(disk.contents)| == config.layout.total
                  && PieceBytes(config.layout, Flat(disk.contents), index) == data
      ensures r.Err? ==> bytes == old(bytes) && count == old(count)
      ensures r == Ok(false) <==> index < have.Length && !old(have[..])[index] && config.sha(data) != config.hashes[index]
    {
      hide Flat, Patch, PieceBytes;
      if index >= NumPieces(config) {
        return Err(NoSuchPiece);
      }
      if have[index] {
        return Ok(true);
      }
      if config.sha(data) != config.hashes[index] {
        failures := failures + 1;
        return Ok(false);
      }
      ghost var before := Flat(disk.contents);
      have[index] := true;
      lost := lost + {index};
      var written := disk.WritePiece(index, data, io);
      if disk.preallocated {
        FlatTotal(config.layout, disk.contents);
      }
      if written.Err? {
        if written.error == IoFailure {
          OthersKept(config.layout, before, Flat(disk.contents), index);
        }
        return Err(DiskFailed(written.error));
      }
      WriteThenRead(config.layout, before, index, data);
      lost := lost - {index};
      bytes := bytes + ManagerLength(config, index);
      count := count + 1;
      return Ok(true);
    }

    method AbortPiece(index: nat)
      requires Valid()
      modifies claimed
      ensures Valid()
      ensures claimed[..] == if index < have.Length && !have[index] then old(claimed[..])[index := false] else old(claimed[..])
    {
      if index >= NumPieces(config) {
        return;
      }
      if !have[index] {
        claimed[index] := false;
      }
    }

    /** Serves only verified bytes, unless the write of the piece failed. A request that the length
        test lets through is served from inside the piece exactly when it ends inside it. */
    method ReadBlock(index: nat, begin: nat, length: nat, io: nat -> Io) returns (r: Result<seq<Byte>, PieceError>)
      requires Valid() && Stored()
      ensures r == Err(NotAvailable) <==> index >= have.Length || !have[index]
      ensures r == Err(OutOfBounds)
              <==> index < have.Length && have[index] && begin + length > ManagerLength(config, index)
      ensures r == Err(OutsideBuffer)
              ==> InRange(config.layout, index) && PieceLength(config.layout, index) < begin + length <= ManagerLength(config, index)
      ensures r.Ok? ==> InRange(config.layout, index) && begin + length <= PieceLength(config.layout, index)
                        && |Flat(disk.contents)| == config.layout.total
                        && |PieceBytes(config.layout, Flat(disk.contents), index)| == PieceLength(config.layout, index)
                        && r.value == PieceBytes(config.layout, Flat(disk.contents), index)[begin..begin + length]
      ensures r.Ok? && index !in lost
              ==> config.sha(PieceBytes(config.layout, Flat(disk.contents), index)) == config.hashes[index]
      ensures index < have.Length && have[index] && begin + length <= ManagerLength(config, index)
              ==> match ReadError(disk.preallocated, config.layout, index, io)
                  case Some(e) => r == Err(DiskFailed(e))
                  case None => if begin + length <= PieceLength(config.layout, index) then r.Ok? else r == Err(OutsideBuffer)
    {
      if index >= NumPieces(config) || !have[index] {
        return Err(NotAvailable);
      }
      var plen := ManagerLength(config, index);
      if begin > plen || length > plen - begin {
        return Err(OutOfBounds);
      }
      hide Flat;
      var piece := disk.ReadPiece(index, io);
      if piece.Err? {
        return Err(DiskFailed(piece.error));
      }
      PieceFits(config.layout, index);
      if begin + length > |piece.value| {
        return Err(OutsideBuffer);
      }
      return Ok(piece.value[begin..begin + length]);
    }
  }

  // ---------------------------------------------------------------------------
  // Which torrents keep every served block inside its piece
  // ---------------------------------------------------------------------------

  predicate InsideManager(c: Download.Config, i: nat, begin: nat, length: nat) {
    begin + length <= ManagerLength(c, i)
  }

  /** Every request for the piece that passes the length test of read_block ends inside the piece. */
  ghost predicate BlocksInside(c: Download.Config, i: nat)
    requires InRange(c.layout, i)
  {
    forall begin: nat, length: nat :: InsideManager(c, i, begin, length) ==> begin + length <= PieceLength(c.layout, i)
  }

  lemma BlocksInsideIff(c: Download.Config, i: nat)
    requires InRange(c.layout, i)
    ensures BlocksInside(c, i) <==> ManagerLength(c, i) <= PieceLength(c.layout, i)
  {
    assert InsideManager(c, i, 0, ManagerLength(c, i));
  }

  /** The torrent is well formed, or its missing tail is hidden by the 32-bit cast, or its surplus
      hashes begin where the bytes end. */
  predicate SafeToServe(c: Download.Config) {
    var n, size, total := NumPieces(c), c.nominal, c.layout.total;
    || WellFormedTorrent(c)
    || (n * size < total && (total - (n - 1) * size) % TWO32 <= size)
    || (total <= (n - 1) * size && size > 0 && total % size == 0)
  }

  /** No block is ever read past its piece if and only if the torrent is safe to serve. */
  lemma ServesInsideIff(c: Download.Config)
    requires ValidLayout(c.layout) && c.nominal == c.layout.pieceSize && 0 < NumPieces(c) < TWO32
    ensures (forall i :: 0 <= i < NumPieces(c) && InRange(c.layout, i) ==> BlocksInside(c, i)) <==> SafeToServe(c)
  {
    hide BlocksInside, Contiguous, OffsetAt, SafeToServe, ManagerLength, PieceLength;
    forall i | 0 <= i < NumPieces(c) && InRange(c.layout, i)
      ensures BlocksInside(c, i) <==> ManagerLength(c, i) <= PieceLength(c.layout, i)
    {
      BlocksInsideIff(c, i);
    }
    if (NumPieces(c) - 1) * c.nominal < c.layout.total {
      ServesLast(c);
    } else {
      ServesSurplus(c);
    }
  }

  /** With no surplus hash only the last piece matters. */
  lemma ServesLast(c: Download.Config)
    requires ValidLayout(c.layout) && c.nominal == c.layout.pieceSize && 0 < NumPieces(c) < TWO32
    requires (NumPieces(c) - 1) * c.nominal < c.layout.total
    ensures (forall i :: 0 <= i < NumPieces(c) && InRange(c.layout, i) ==> ManagerLength(c, i) <= PieceLength(c.layout, i))
            <==> SafeToServe(c)
  {
    hide Contiguous, OffsetAt;
    var n, size, total := NumPieces(c), c.nominal, c.layout.total;
    assert n * size == (n - 1) * size + size;
    assert InRange(c.layout, n - 1);
    forall i | 0 <= i < n - 1
      ensures InRange(c.layout, i) && ManagerLength(c, i) <= PieceLength(c.layout, i)
    {
      MulStep(i, n - 1, size);
    }
  }

  /** With a surplus hash every piece in range must be whole. */
  lemma ServesSurplus(c: Download.Config)
    requires ValidLayout(c.layout) && c.nominal == c.layout.pieceSize && 0 < NumPieces(c) < TWO32
    requires (NumPieces(c) - 1) * c.nominal >= c.layout.total
    ensures (forall i :: 0 <= i < NumPieces(c) && InRange(c.layout, i) ==> ManagerLength(c, i) <= PieceLength(c.layout, i))
            <==> SafeToServe(c)
  {
    hide Contiguous, OffsetAt, PieceLength, ManagerLength, Whole, SafeToServe;
    var n, size, total := NumPieces(c), c.nominal, c.layout.total;
    SurplusIsSafe(c);
    AllWholeIff(n, size, total);
    forall i: nat | i < n
      ensures (InRange(c.layout, i) ==> ManagerLength(c, i) <= PieceLength(c.layout, i)) <==> Whole(i, size, total)
    {
      SurplusPiece(c, i);
    }
  }

  lemma SurplusIsSafe(c: Download.Config)
    requires c.nominal > 0 && 0 < NumPieces(c) && (NumPieces(c) - 1) * c.nominal >= c.layout.total
    ensures SafeToServe(c) <==> c.layout.total % c.nominal == 0
  {
    assert NumPieces(c) * c.nominal == (NumPieces(c) - 1) * c.nominal + c.nominal;
  }

  /** A piece that starts below the total ends below it. */
  predicate Whole(i: nat, size: nat, total: nat) {
    i * size < total ==> (i + 1) * size <= total
  }

  lemma AllWholeIff(n: nat, size: nat, total: nat)
    requires 0 < n && 0 < size && total <= (n - 1) * size
    ensures (forall i: nat :: i < n ==> Whole(i, size, total)) <==> total % size == 0
  {
    var last := total / size;
    QuotientRemainder(total, size);
    if total % size == 0 {
      forall i: nat | i < n
        ensures Whole(i, size, total)
      {
        if i * size < total {
          IndexBelow(i, last, size);
          MulStep(i, last, size);
        }
      }
    } else {
      IndexBelow(last, n - 1, size);
      assert !Whole(last, size, total);
    }
  }

  lemma SurplusPiece(c: Download.Config, i: nat)
    requires ValidLayout(c.layout) && c.nominal == c.layout.pieceSize && 0 < NumPieces(c) < TWO32
    requires (NumPieces(c) - 1) * c.nominal >= c.layout.total
    ensures (InRange(c.layout, i) ==> ManagerLength(c, i) <= PieceLength(c.layout, i)) <==> Whole(i, c.nominal, c.layout.total)
  {
    hide Contiguous, OffsetAt;
    assert (i + 1) * c.nominal == i * c.nominal + c.nominal;
    if InRange(c.layout, i) {
      IndexBelow(i, NumPieces(c) - 1, c.nominal);
    }
  }

  lemma IndexBelow(i: nat, m: nat, size: nat)
    requires i * size < m * size
    ensures i < m
  {
    if m < i {
      MulStep(m, i, size);
    }
  }

  lemma QuotientRemainder(total: nat, size: nat)
    requires size > 0
    ensures total == total / size * size + total % size
    ensures (total / size + 1) * size > total
  {
  }

  /** A torrent of 100 bytes in pieces of 10 with a single hash: the manager takes piece 0 for 100
      bytes long, the disk writer for 10, so a block at 50 passes the length test. */
  lemma OverreadExample()
    ensures var c := Config(Layout(10, 100, [FileEntry(100, 0)]), 10, [[]], bytes => []);
            && ValidLayout(c.layout) && InRange(c.layout, 0)
            && InsideManager(c, 0, 50, 50) && 50 + 50 > PieceLength(c.layout, 0)
  {
    var files := [FileEntry(100, 0)];
    assert OffsetAt(files, 1) == OffsetAt(files, 0) + 100;
  }

  /** A write that fails leaves every other piece as it was. */
  lemma OthersKept(l: Layout, before: seq<Byte>, after: seq<Byte>, index: nat)
    requires ValidLayout(l) && InRange(l, index) && |before| == l.total && |after| == l.total
    requires before == after || SameOutside(l, before, after, index)
    ensures forall j :: 0 <= j && j != index && InRange(l, j) ==> PieceBytes(l, after, j) == PieceBytes(l, before, j)
  {
    forall j | 0 <= j && j != index && InRange(l, j)
      ensures PieceBytes(l, after, j) == PieceBytes(l, before, j)
    {
      if before != after {
        OtherPiecesUntouched(l, before, after, index, j);
      }
    }
  }
}
