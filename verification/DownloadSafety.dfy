/** Safety of the download protocol in every interleaving. */
module DownloadSafety {
  import opened Common
  import opened Disk
  import opened Download

  // ---------------------------------------------------------------------------
  // The invariant
  // ---------------------------------------------------------------------------

  predicate Holds(conn: Conn, i: nat) {
    conn.exclusive && conn.current == Some(i)
  }

  /** The winner of a piece between setting `have` and counting it. */
  predicate Busy(pc: Pc) {
    pc.Write? || pc.AddBytes? || pc.AddCount?
  }

  /** The flat disk shows the bytes a writer has written so far. */
  predicate Progress(c: Config, flat: seq<Byte>, i: nat, data: seq<Byte>, k: nat, pos: nat)
    requires ValidLayout(c.layout) && |flat| == c.layout.total
  {
    Fits(c, i, data) ==>
      && Reached(c.layout, k, PieceOffset(c.layout, i), pos, |data|)
      && PieceOffset(c.layout, i) + |data| <= |flat|
      && flat[PieceOffset(c.layout, i)..PieceOffset(c.layout, i) + pos] == data[..pos]
  }

  ghost predicate WriterOk(c: Config, stage: seq<Stage>, flat: seq<Byte>, t: nat, conn: Conn)
    requires ConnShape(c, conn) && |stage| == NumPieces(c)
    requires ValidLayout(c.layout) && |flat| == c.layout.total
  {
    match conn.pc
    case Write(data, k, pos) =>
      stage[conn.current.value] == Writing(t) && Progress(c, flat, conn.current.value, data, k, pos)
    case AddBytes => stage[conn.current.value] == Written(t)
    case AddCount => stage[conn.current.value] == Banked(t)
    case _ => true
  }

  predicate OnDisk(c: Config, flat: seq<Byte>, i: nat)
    requires |flat| == c.layout.total && i < NumPieces(c)
  {
    InRange(c.layout, i) && c.sha(PieceBytes(c.layout, flat, i)) == c.hashes[i]
  }

  predicate At(conns: map<nat, Conn>, t: nat, i: nat) {
    t in conns && conns[t].current == Some(i)
  }

  ghost predicate StageOk(c: Config, have: bool, stage: Stage, conns: map<nat, Conn>, flat: seq<Byte>, i: nat)
    requires |flat| == c.layout.total && i < NumPieces(c)
  {
    && (have <==> stage != Missing)
    && match stage
       case Writing(t) => At(conns, t, i) && conns[t].pc.Write?
       case Written(t) => At(conns, t, i) && conns[t].pc.AddBytes? && OnDisk(c, flat, i)
       case Banked(t) => At(conns, t, i) && conns[t].pc.AddCount? && OnDisk(c, flat, i)
       case Counted => OnDisk(c, flat, i)
       case _ => true
  }

  ghost predicate ClaimsOk(s: State)
    requires |s.have| == |s.claimed| == |s.owner|
  {
    && (forall i :: 0 <= i < |s.owner| && s.owner[i].Some? ==>
          s.claimed[i] && s.owner[i].value in s.conns && Holds(s.conns[s.owner[i].value], i))
    && (forall t, i :: t in s.conns && 0 <= i < |s.owner| && Holds(s.conns[t], i) ==> s.owner[i] == Some(t))
    && (forall i :: 0 <= i < |s.owner| && s.claimed[i] && !s.have[i] ==> s.owner[i].Some?)
  }

  function CountWeight(stage: Stage): (w: nat) {
    if stage.Counted? then 1 else 0
  }

  function ByteWeight(c: Config, stage: Stage, i: nat): (w: nat) {
    if stage.Counted? || stage.Banked? then ManagerLength(c, i) else 0
  }

  function CountWeights(stage: seq<Stage>): (ws: seq<nat>) {
    seq(|stage|, i requires 0 <= i < |stage| => CountWeight(stage[i]))
  }

  function ByteWeights(c: Config, stage: seq<Stage>): (ws: seq<nat>) {
    seq(|stage|, i requires 0 <= i < |stage| => ByteWeight(c, stage[i], i))
  }

  ghost predicate Tallied(c: Config, s: State) {
    s.count == Sum(CountWeights(s.stage)) && s.bytes == Sum(ByteWeights(c, s.stage))
  }

  ghost predicate ConnsOk(c: Config, s: State) {
    forall t :: t in s.conns ==> ConnShape(c, s.conns[t])
  }

  ghost predicate WritersOk(c: Config, s: State)
    requires ShapeOk(c, s) && ConnsOk(c, s) && |Flat(s.contents)| == c.layout.total
  {
    forall t :: t in s.conns ==> WriterOk(c, s.stage, Flat(s.contents), t, s.conns[t])
  }

  ghost predicate StagesOk(c: Config, s: State)
    requires ShapeOk(c, s) && |Flat(s.contents)| == c.layout.total
  {
    forall i :: 0 <= i < NumPieces(c) ==> StageOk(c, s.have[i], s.stage[i], s.conns, Flat(s.contents), i)
  }

  ghost predicate Invariant(c: Config, s: State) {
    && ShapeOk(c, s)
    && |Flat(s.contents)| == c.layout.total
    && ConnsOk(c, s)
    && WritersOk(c, s)
    && StagesOk(c, s)
    && ClaimsOk(s)
    && Tallied(c, s)
  }

  lemma InitialInvariant(c: Config, s: State)
    requires ValidLayout(c.layout) && Initial(c, s)
    ensures Invariant(c, s)
  {
    hide Flat, OffsetAt;
    FlatTotal(c.layout, s.contents);
    SumOfZeros(CountWeights(s.stage));
    SumOfZeros(ByteWeights(c, s.stage));
  }

  // ---------------------------------------------------------------------------
  // Steps that move one idle or searching thread
  // ---------------------------------------------------------------------------

  /** Only thread t moved, it was and is no winner, and no piece or file changed. */
  predicate Quiet(c: Config, s: State, r: State, t: nat) {
    && r.have == s.have && r.stage == s.stage && r.contents == s.contents
    && r.bytes == s.bytes && r.count == s.count
    && |r.claimed| == |r.owner| == NumPieces(c)
    && t in r.conns && r.conns == s.conns[t := r.conns[t]]
    && ConnShape(c, r.conns[t]) && !Busy(r.conns[t].pc)
    && (t in s.conns ==> !Busy(s.conns[t].pc))
  }

  lemma QuietKeeps(c: Config, s: State, r: State, t: nat)
    requires Invariant(c, s) && Quiet(c, s, r, t)
    ensures ShapeOk(c, r) && |Flat(r.contents)| == c.layout.total && ConnsOk(c, r) && WritersOk(c, r)
    ensures StagesOk(c, r)
    ensures Tallied(c, r)
  {
    hide Flat, ValidLayout, Shaped, ConnShape, OnDisk, Progress, Sum, ClaimsOk;
    forall u | u in r.conns
      ensures ConnShape(c, r.conns[u]) && WriterOk(c, r.stage, Flat(r.contents), u, r.conns[u])
    {
      if u != t {
        assert WriterOk(c, s.stage, Flat(s.contents), u, s.conns[u]);
      }
    }
    forall i | 0 <= i < NumPieces(c)
      ensures StageOk(c, r.have[i], r.stage[i], r.conns, Flat(r.contents), i)
    {
      assert StageOk(c, s.have[i], s.stage[i], s.conns, Flat(s.contents), i);
    }
  }

  /** A thread that is not a winner moves without changing what it holds. */
  lemma MoveKeeps(c: Config, s: State, t: nat, conn: Conn)
    requires Invariant(c, s) && t in s.conns && ConnShape(c, conn)
    requires conn.current == s.conns[t].current && conn.exclusive == s.conns[t].exclusive
    requires !Busy(s.conns[t].pc) && !Busy(conn.pc)
    ensures Invariant(c, Put(s, t, conn))
  {
    hide Flat, ValidLayout, Shaped, ConnShape, Sum, WritersOk, StagesOk, ConnsOk;
    QuietKeeps(c, s, Put(s, t, conn), t);
  }

  /** Letting go of a piece, with `claimed` kept or cleared at that piece. */
  lemma ClaimsAfterDrop(s: State, t: nat, next: Pc, claimed: seq<bool>)
    requires |s.have| == |s.claimed| == |s.owner| == |claimed| && ClaimsOk(s) && t in s.conns
    requires s.conns[t].exclusive ==> s.conns[t].current.Some? && s.conns[t].current.value < |s.owner|
    requires forall i :: 0 <= i < |claimed| && claimed[i] != s.claimed[i] ==> !claimed[i] && Holds(s.conns[t], i)
    requires s.conns[t].exclusive ==>
               s.have[s.conns[t].current.value] || !claimed[s.conns[t].current.value]
    ensures ClaimsOk(Drop(s, t, next).(claimed := claimed))
  {
    var r := Drop(s, t, next).(claimed := claimed);
    forall i | 0 <= i < |r.owner| && r.owner[i].Some?
      ensures r.claimed[i] && r.owner[i].value in r.conns && Holds(r.conns[r.owner[i].value], i)
    {
      assert s.owner[i] == r.owner[i];
      assert Holds(s.conns[s.owner[i].value], i);
    }
    forall u, i | u in r.conns && 0 <= i < |r.owner| && Holds(r.conns[u], i)
      ensures r.owner[i] == Some(u)
    {
      assert Holds(s.conns[u], i);
      assert s.owner[i] == Some(u);
    }
    forall i | 0 <= i < |r.owner| && r.claimed[i] && !r.have[i]
      ensures r.owner[i].Some?
    {
      assert s.owner[i].Some?;
    }
  }

  /** A thread that is not a winner lets go of its piece; an exclusive claim may be dropped this
      way only when the piece is already had. */
  lemma DropKeeps(c: Config, s: State, t: nat, next: Pc)
    requires Invariant(c, s) && t in s.conns && !Busy(s.conns[t].pc)
    requires next.Idle? || next.Closed? || next.Scan?
    requires s.conns[t].exclusive ==> s.have[s.conns[t].current.value]
    ensures Invariant(c, Drop(s, t, next))
  {
    hide Flat, ValidLayout, Shaped, Sum, WritersOk, StagesOk, ClaimsOk;
    QuietKeeps(c, s, Drop(s, t, next), t);
    ClaimsAfterDrop(s, t, next, s.claimed);
    assert Drop(s, t, next).(claimed := s.claimed) == Drop(s, t, next);
  }

  /** abort_piece stores false: the claim is free again. */
  lemma ReleaseKeeps(c: Config, s: State, t: nat, next: Pc)
    requires Invariant(c, s) && t in s.conns && s.conns[t].pc.ReleaseStore?
    requires next.Idle? || next.Closed?
    ensures Invariant(c, Drop(s, t, next).(claimed := s.claimed[s.conns[t].current.value := false]))
  {
    hide Flat, ValidLayout, Shaped, Sum, WritersOk, StagesOk, ClaimsOk;
    QuietKeeps(c, s, Drop(s, t, next).(claimed := s.claimed[s.conns[t].current.value := false]), t);
    ClaimsAfterDrop(s, t, next, s.claimed[s.conns[t].current.value := false]);
  }

  /** The CAS on `claimed` succeeds. */
  lemma ClaimKeeps(c: Config, s: State, t: nat, i: nat)
    requires Invariant(c, s) && t in s.conns && s.conns[t].pc == TryClaim(i) && !s.claimed[i]
    ensures Invariant(c, StepConn(c, s, t))
  {
    hide Flat, ValidLayout, Shaped, Sum, WritersOk, StagesOk;
    QuietKeeps(c, s, StepConn(c, s, t), t);
  }

  /** An endgame pick takes no claim. */
  lemma PickKeeps(c: Config, s: State, t: nat, i: nat)
    requires Invariant(c, s) && t in s.conns && s.conns[t].pc == Endgame(i) && i < NumPieces(c)
    ensures Invariant(c, Put(s, t, s.conns[t].(pc := Idle, current := Some(i), exclusive := false)))
  {
    hide Flat, ValidLayout, Shaped, Sum, WritersOk, StagesOk;
    QuietKeeps(c, s, Put(s, t, s.conns[t].(pc := Idle, current := Some(i), exclusive := false)), t);
  }

  lemma ConnectKeeps(c: Config, s: State, t: nat)
    requires Invariant(c, s) && t !in s.conns
    ensures Invariant(c, Put(s, t, NewConn(c)))
  {
    hide Flat, ValidLayout, Shaped, Sum, WritersOk, StagesOk;
    QuietKeeps(c, s, Put(s, t, NewConn(c)), t);
  }

  // ---------------------------------------------------------------------------
  // Steps of the winner of a piece
  // ---------------------------------------------------------------------------

  /** Nothing of the disk changed outside piece i. */
  predicate OnlyPiece(c: Config, before: seq<Byte>, after: seq<Byte>, i: nat) {
    if InRange(c.layout, i) then SameOutside(c.layout, before, after, i) else before == after
  }

  lemma OnDiskFrame(c: Config, before: seq<Byte>, after: seq<Byte>, i: nat, j: nat)
    requires ValidLayout(c.layout) && |before| == |after| == c.layout.total && i != j && j < NumPieces(c)
    requires OnlyPiece(c, before, after, i) && OnDisk(c, before, j)
    ensures OnDisk(c, after, j)
  {
    hide PieceBytes, ValidLayout;
    if InRange(c.layout, i) {
      OtherPiecesUntouched(c.layout, before, after, i, j);
    }
  }

  lemma ProgressFrame(c: Config, before: seq<Byte>, after: seq<Byte>, i: nat, j: nat, data: seq<Byte>, k: nat, pos: nat)
    requires ValidLayout(c.layout) && |before| == |after| == c.layout.total && i != j
    requires OnlyPiece(c, before, after, i) && Progress(c, before, j, data, k, pos)
    ensures Progress(c, after, j, data, k, pos)
  {
    if Fits(c, j, data) && InRange(c.layout, i) {
      PiecesDisjoint(c.layout, i, j);
      hide PieceOffset, PieceLength, InRange, ValidLayout, OffsetAt;
      var base := PieceOffset(c.layout, j);
      assert forall p :: base <= p < base + pos ==> after[p] == before[p];
    }
  }

  /** Thread t, alone responsible for piece i, moves; only that piece's stage and bytes change. */
  ghost predicate WinnerStep(c: Config, s: State, r: State, t: nat, i: nat)
    requires ShapeOk(c, s)
  {
    && i < NumPieces(c) && At(s.conns, t, i)
    && (s.stage[i].Missing? || s.stage[i] == Writing(t) || s.stage[i] == Written(t) || s.stage[i] == Banked(t))
    && ShapeOk(c, r) && |Flat(s.contents)| == |Flat(r.contents)| == c.layout.total
    && OnlyPiece(c, Flat(s.contents), Flat(r.contents), i)
    && r.stage == s.stage[i := r.stage[i]] && r.have == s.have[i := r.have[i]]
    && t in r.conns && r.conns == s.conns[t := r.conns[t]]
    && ConnShape(c, r.conns[t]) && WriterOk(c, r.stage, Flat(r.contents), t, r.conns[t])
    && StageOk(c, r.have[i], r.stage[i], r.conns, Flat(r.contents), i)
  }

  lemma WinnerWriters(c: Config, s: State, r: State, t: nat, i: nat, u: nat)
    requires Invariant(c, s) && WinnerStep(c, s, r, t, i) && u in r.conns
    ensures ConnShape(c, r.conns[u]) && WriterOk(c, r.stage, Flat(r.contents), u, r.conns[u])
  {
    hide Flat, ValidLayout, Shaped, OnDisk, Progress, Sum, ClaimsOk, OnlyPiece;
    if u != t {
      assert WriterOk(c, s.stage, Flat(s.contents), u, s.conns[u]);
      var conn := s.conns[u];
      if conn.pc.Write? {
        var j := conn.current.value;
        assert j != i;
        ProgressFrame(c, Flat(s.contents), Flat(r.contents), i, j, conn.pc.data, conn.pc.k, conn.pc.pos);
      }
    }
  }

  lemma WinnerStages(c: Config, s: State, r: State, t: nat, i: nat, j: nat)
    requires Invariant(c, s) && WinnerStep(c, s, r, t, i) && j < NumPieces(c)
    ensures StageOk(c, r.have[j], r.stage[j], r.conns, Flat(r.contents), j)
  {
    hide Flat, ValidLayout, Shaped, OnDisk, Progress, Sum, ClaimsOk, OnlyPiece;
    if j != i {
      assert StageOk(c, s.have[j], s.stage[j], s.conns, Flat(s.contents), j);
      if OnDisk(c, Flat(s.contents), j) {
        OnDiskFrame(c, Flat(s.contents), Flat(r.contents), i, j);
      }
    }
  }

  lemma WinnerKeeps(c: Config, s: State, r: State, t: nat, i: nat)
    requires Invariant(c, s) && WinnerStep(c, s, r, t, i)
    ensures ConnsOk(c, r) && WritersOk(c, r) && StagesOk(c, r)
  {
    hide Flat, ValidLayout, Shaped, OnDisk, Progress, Sum, ClaimsOk, OnlyPiece, WriterOk, StageOk, ConnShape;
    forall u | u in r.conns
      ensures ConnShape(c, r.conns[u]) && WriterOk(c, r.stage, Flat(r.contents), u, r.conns[u])
    {
      WinnerWriters(c, s, r, t, i, u);
    }
    forall j | 0 <= j < NumPieces(c)
      ensures StageOk(c, r.have[j], r.stage[j], r.conns, Flat(r.contents), j)
    {
      WinnerStages(c, s, r, t, i, j);
    }
  }

  /** Claims survive when nobody's hold changes and `have` only grows. */
  lemma ClaimsAfterMove(s: State, r: State, t: nat)
    requires |s.have| == |s.claimed| == |s.owner| == |r.have| == |r.claimed| == |r.owner| && ClaimsOk(s)
    requires r.claimed == s.claimed && r.owner == s.owner
    requires forall i :: 0 <= i < |s.have| && s.have[i] ==> r.have[i]
    requires t in s.conns && t in r.conns && r.conns == s.conns[t := r.conns[t]]
    requires r.conns[t].current == s.conns[t].current && r.conns[t].exclusive == s.conns[t].exclusive
    ensures ClaimsOk(r)
  {
    forall u, i | u in r.conns && 0 <= i < |r.owner| && Holds(r.conns[u], i)
      ensures r.owner[i] == Some(u)
    {
      assert Holds(s.conns[u], i);
    }
  }

  lemma TallyAfter(c: Config, s: State, r: State, i: nat)
    requires ShapeOk(c, s) && Tallied(c, s) && i < |s.stage| == |r.stage| && r.stage == s.stage[i := r.stage[i]]
    requires r.count == s.count + CountWeight(r.stage[i]) - CountWeight(s.stage[i])
    requires r.bytes == s.bytes + ByteWeight(c, r.stage[i], i) - ByteWeight(c, s.stage[i], i)
    ensures Tallied(c, r)
  {
    hide ManagerLength, ValidLayout, Shaped, Sum;
    SumUpdate(CountWeights(s.stage), i, CountWeight(r.stage[i]));
    SumUpdate(ByteWeights(c, s.stage), i, ByteWeight(c, r.stage[i], i));
    assert CountWeights(s.stage)[i := CountWeight(r.stage[i])] == CountWeights(r.stage);
    assert ByteWeights(c, s.stage)[i := ByteWeight(c, r.stage[i], i)] == ByteWeights(c, r.stage);
  }

  /** The CAS on `have` succeeds: t becomes the one winner of the piece. */
  lemma HaveKeeps(c: Config, s: State, t: nat, data: seq<Byte>)
    requires Invariant(c, s) && t in s.conns && s.conns[t].pc == TryHave(data)
    requires !s.have[s.conns[t].current.value]
    ensures Invariant(c, StepConn(c, s, t))
  {
    hide Flat, OffsetAt, Sum, ClaimsOk, OnDisk;
    var i, r := s.conns[t].current.value, StepConn(c, s, t);
    assert StageOk(c, s.have[i], s.stage[i], s.conns, Flat(s.contents), i);
    if Fits(c, i, data) {
      PieceFits(c.layout, i);
      LoopStart(c.layout, Flat(s.contents), PieceOffset(c.layout, i), data);
    }
    hide ManagerLength, PieceOffset, PieceLength, InRange, Contiguous;
    assert Progress(c, Flat(r.contents), i, data, 0, 0);
    assert OnlyPiece(c, Flat(s.contents), Flat(r.contents), i);
    WinnerKeeps(c, s, r, t, i);
    ClaimsAfterMove(s, r, t);
    TallyAfter(c, s, r, i);
  }

  /** The winner writes one chunk, or passes a file that is not its own. */
  lemma WriteMoveKeeps(c: Config, s: State, t: nat, data: seq<Byte>, k: nat, pos: nat)
    requires Invariant(c, s) && t in s.conns && s.conns[t].pc == Write(data, k, pos)
    requires Fits(c, s.conns[t].current.value, data) && pos < |data|
    ensures Invariant(c, StepConn(c, s, t))
  {
    hide Flat, OffsetAt, Sum, ClaimsOk, OnDisk, ManagerLength;
    var i, r := s.conns[t].current.value, StepConn(c, s, t);
    var l, base := c.layout, PieceOffset(c.layout, i);
    assert WriterOk(c, s.stage, Flat(s.contents), t, s.conns[t]);
    assert StageOk(c, s.have[i], s.stage[i], s.conns, Flat(s.contents), i);
    ChunkProgress(c, s, t, data, k, pos);
    hide PieceOffset, PieceLength, InRange, Contiguous, VisitFile, WriteStep, Shaped;
    WinnerKeeps(c, s, r, t, i);
    ClaimsAfterMove(s, r, t);
    TallyAfter(c, s, r, i);
  }

  lemma ChunkProgress(c: Config, s: State, t: nat, data: seq<Byte>, k: nat, pos: nat)
    requires ShapeOk(c, s) && |Flat(s.contents)| == c.layout.total
    requires t in s.conns && s.conns[t].pc == Write(data, k, pos) && ConnShape(c, s.conns[t])
    requires Progress(c, Flat(s.contents), s.conns[t].current.value, data, k, pos)
    requires Fits(c, s.conns[t].current.value, data) && pos < |data|
    ensures var i, r := s.conns[t].current.value, StepConn(c, s, t);
            && Shaped(c.layout, r.contents)
            && |Flat(r.contents)| == c.layout.total
            && OnlyPiece(c, Flat(s.contents), Flat(r.contents), i)
            && r == s.(contents := r.contents, conns := s.conns[t := r.conns[t]])
            && r.conns[t].pc.Write? && r.conns[t] == s.conns[t].(pc := r.conns[t].pc)
            && r.conns[t].pc.data == data
            && Progress(c, Flat(r.contents), i, data, r.conns[t].pc.k, r.conns[t].pc.pos)
  {
    hide Flat, OffsetAt, ManagerLength, PieceOffset, PieceLength, InRange, Patch;
    var i := s.conns[t].current.value;
    var l, base := c.layout, PieceOffset(c.layout, i);
    PieceFits(l, i);
    ChunkLoopEnds(l, k, base, pos, |data|);
    VisitAdvances(l, k, base, pos, |data|);
    match VisitFile(l.files[k], base + pos, |data| - pos)
    case Skip =>
    case Touch(start, chunk) =>
      ChunkWritten(c, s.contents, i, data, k, pos, start, chunk, data[pos..pos + chunk]);
  }

  /** Bytes are still due, so there is a file left. */
  lemma ChunkLoopEnds(l: Layout, k: nat, base: nat, pos: nat, len: nat)
    requires ValidLayout(l) && Reached(l, k, base, pos, len) && base + len <= l.total && pos < len
    ensures k < |l.files|
  {
  }

  lemma ChunkWritten(c: Config, contents: seq<seq<Byte>>, i: nat, data: seq<Byte>, k: nat, pos: nat,
                     start: nat, chunk: nat, bytes: seq<Byte>)
    requires ValidLayout(c.layout) && Shaped(c.layout, contents) && |Flat(contents)| == c.layout.total
    requires Fits(c, i, data) && pos < |data| && k < |c.layout.files| && Progress(c, Flat(contents), i, data, k, pos)
    requires VisitFile(c.layout.files[k], PieceOffset(c.layout, i) + pos, |data| - pos) == Touch(start, chunk)
    requires |bytes| == chunk
    ensures start + chunk <= |contents[k]| && pos + chunk <= |data|
    ensures var after := contents[k := Patch(contents[k], start, bytes)];
            && Shaped(c.layout, after)
            && |Flat(after)| == c.layout.total
            && OnlyPiece(c, Flat(contents), Flat(after), i)
            && (bytes == data[pos..pos + chunk] ==> Progress(c, Flat(after), i, data, k + 1, pos + chunk))
  {
    hide Flat, OffsetAt, PieceOffset, PieceLength, InRange;
    var l, base := c.layout, PieceOffset(c.layout, i);
    VisitAdvances(l, k, base, pos, |data|);
    FilePatch(l, contents, k, start, bytes);
    PatchBehind(Flat(contents), base, pos, bytes);
    PatchElsewhere(Flat(contents), base + pos, bytes);
    hide VisitFile, Contiguous;
    assert data[..pos + chunk] == data[..pos] + data[pos..pos + chunk];
  }

  /** The last byte is on disk: the whole piece is, and it hashes as expected. */
  lemma WriteDoneKeeps(c: Config, s: State, t: nat, data: seq<Byte>, k: nat)
    requires Invariant(c, s) && t in s.conns && s.conns[t].pc == Write(data, k, |data|)
    requires Fits(c, s.conns[t].current.value, data)
    ensures Invariant(c, StepConn(c, s, t))
  {
    hide Flat, OffsetAt, Sum, ClaimsOk, ManagerLength, PieceOffset, PieceLength, InRange, Contiguous, Shaped, Reached;
    var i, r := s.conns[t].current.value, StepConn(c, s, t);
    assert WriterOk(c, s.stage, Flat(s.contents), t, s.conns[t]);
    assert StageOk(c, s.have[i], s.stage[i], s.conns, Flat(s.contents), i);
    assert data[..|data|] == data;
    assert PieceBytes(c.layout, Flat(s.contents), i) == data;
    assert OnlyPiece(c, Flat(s.contents), Flat(r.contents), i);
    WinnerKeeps(c, s, r, t, i);
    ClaimsAfterMove(s, r, t);
    TallyAfter(c, s, r, i);
  }

  lemma AddBytesKeeps(c: Config, s: State, t: nat)
    requires Invariant(c, s) && t in s.conns && s.conns[t].pc == AddBytes
    ensures Invariant(c, StepConn(c, s, t))
  {
    hide Flat, Sum, ClaimsOk, ManagerLength, OnDisk, Shaped, Progress, ValidLayout;
    var i, r := s.conns[t].current.value, StepConn(c, s, t);
    assert WriterOk(c, s.stage, Flat(s.contents), t, s.conns[t]);
    assert StageOk(c, s.have[i], s.stage[i], s.conns, Flat(s.contents), i);
    assert OnlyPiece(c, Flat(s.contents), Flat(r.contents), i);
    WinnerKeeps(c, s, r, t, i);
    ClaimsAfterMove(s, r, t);
    TallyAfter(c, s, r, i);
  }

  lemma AddCountKeeps(c: Config, s: State, t: nat)
    requires Invariant(c, s) && t in s.conns && s.conns[t].pc == AddCount
    ensures Invariant(c, StepConn(c, s, t))
  {
    hide Flat, Sum, ClaimsOk, ManagerLength, OnDisk, Shaped, Progress, ValidLayout;
    var i, r := s.conns[t].current.value, StepConn(c, s, t);
    assert WriterOk(c, s.stage, Flat(s.contents), t, s.conns[t]);
    assert StageOk(c, s.have[i], s.stage[i], s.conns, Flat(s.contents), i);
    assert OnlyPiece(c, Flat(s.contents), Flat(r.contents), i);
    WinnerKeeps(c, s, r, t, i);
    ClaimsAfterDrop(s, t, Idle, s.claimed);
    ClaimsSameFields(Drop(s, t, Idle).(claimed := s.claimed), r);
    TallyAfter(c, s, r, i);
  }

  lemma ClaimsSameFields(s: State, r: State)
    requires |s.have| == |s.claimed| == |s.owner| && ClaimsOk(s)
    requires r.have == s.have && r.claimed == s.claimed && r.owner == s.owner && r.conns == s.conns
    ensures ClaimsOk(r)
  {
  }

  /** write_piece throws, possibly after damaging bytes of its own piece. */
  lemma FailKeeps(c: Config, s: State, t: nat, contents: seq<seq<Byte>>)
    requires Invariant(c, s) && t in s.conns && s.conns[t].pc.Write?
    requires Shaped(c.layout, contents) && |Flat(contents)| == c.layout.total
    requires OnlyPiece(c, Flat(s.contents), Flat(contents), s.conns[t].current.value)
    ensures Invariant(c, Fail(s.(contents := contents), t, s.conns[t].current.value))
  {
    hide Flat, Sum, ClaimsOk, ManagerLength, OnDisk, Shaped, Progress, ValidLayout, OnlyPiece;
    var i := s.conns[t].current.value;
    var r := Fail(s.(contents := contents), t, i);
    assert WriterOk(c, s.stage, Flat(s.contents), t, s.conns[t]);
    assert StageOk(c, s.have[i], s.stage[i], s.conns, Flat(s.contents), i);
    WinnerKeeps(c, s, r, t, i);
    if s.conns[t].exclusive {
      ClaimsAfterMove(s, r, t);
    } else {
      ClaimsAfterDrop(s, t, Closed, s.claimed);
      ClaimsSameFields(Drop(s, t, Closed).(claimed := s.claimed), r);
    }
    TallyAfter(c, s, r, i);
  }

  lemma NothingTouched(c: Config, flat: seq<Byte>, i: nat)
    requires |flat| == c.layout.total
    ensures OnlyPiece(c, flat, flat, i)
  {
  }

  lemma WriteKeeps(c: Config, s: State, t: nat, data: seq<Byte>, k: nat, pos: nat)
    requires Invariant(c, s) && t in s.conns && s.conns[t].pc == Write(data, k, pos)
    ensures Invariant(c, StepConn(c, s, t))
  {
    hide Flat, Sum, ClaimsOk, ManagerLength, OnDisk, Shaped, ValidLayout, OnlyPiece, OffsetAt, StagesOk, VisitFile, Fail,
         PieceOffset, PieceLength, InRange;
    var i := s.conns[t].current.value;
    assert WriterOk(c, s.stage, Flat(s.contents), t, s.conns[t]);
    if !Fits(c, i, data) {
      NothingTouched(c, Flat(s.contents), i);
      FailKeeps(c, s, t, s.contents);
      assert s.(contents := s.contents) == s;
    } else if pos == |data| {
      WriteDoneKeeps(c, s, t, data, k);
    } else {
      WriteMoveKeeps(c, s, t, data, k, pos);
    }
  }

  lemma FaultKeeps(c: Config, s: State, t: nat, data: seq<Byte>, k: nat, pos: nat, torn: seq<Byte>)
    requires Invariant(c, s) && t in s.conns && s.conns[t].pc == Write(data, k, pos)
    ensures Invariant(c, WriteFault(c, s, t, s.conns[t].current.value, data, k, pos, torn))
  {
    hide Flat, Sum, ClaimsOk, ManagerLength, OnDisk, OnlyPiece, OffsetAt, StagesOk, Fail, ValidLayout,
         PieceOffset, PieceLength, InRange, Patch, VisitFile, Progress;
    var i, l := s.conns[t].current.value, c.layout;
    assert WriterOk(c, s.stage, Flat(s.contents), t, s.conns[t]);
    NothingTouched(c, Flat(s.contents), i);
    FailKeeps(c, s, t, s.contents);
    assert s.(contents := s.contents) == s;
    if Fits(c, i, data) && pos < |data| && k < |l.files| {
      match VisitFile(l.files[k], PieceOffset(l, i) + pos, |data| - pos)
      case Touch(start, chunk) =>
        if |torn| == chunk {
          ChunkWritten(c, s.contents, i, data, k, pos, start, chunk, torn);
          FailKeeps(c, s, t, s.contents[k := Patch(s.contents[k], start, torn)]);
        }
      case _ =>
    }
  }

  lemma StepKeeps(c: Config, s: State, t: nat)
    requires Invariant(c, s) && t in s.conns
    ensures Invariant(c, StepConn(c, s, t))
  {
    hide Flat, Sum, ClaimsOk, ManagerLength, Shaped, ValidLayout, StagesOk, WritersOk, Invariant, Tallied, WriteStep,
         Drop, Put;
    assert ShapeOk(c, s) && ConnShape(c, s.conns[t]) by { InvariantShape(c, s, t); }
    var conn := s.conns[t];
    match conn.pc
    case Idle =>
    case Closed =>
    case CheckCurrent =>
      if s.have[conn.current.value] { DropKeeps(c, s, t, Scan(0)); } else { MoveKeeps(c, s, t, conn.(pc := Idle)); }
    case Scan(i) => SearchKeeps(c, s, t);
    case TryClaim(i) =>
      if s.claimed[i] { MoveKeeps(c, s, t, conn.(pc := Scan(i + 1))); } else { ClaimKeeps(c, s, t, i); }
    case Endgame(i) => SearchKeeps(c, s, t);
    case Enter(data) =>
      if s.have[conn.current.value] { DropKeeps(c, s, t, Idle); }
      else if c.sha(data) == c.hashes[conn.current.value] { MoveKeeps(c, s, t, conn.(pc := TryHave(data))); }
      else { MoveKeeps(c, s, t, conn.(pc := Recheck)); }
    case Recheck =>
      if s.have[conn.current.value] || !conn.exclusive { DropKeeps(c, s, t, Idle); }
      else { MoveKeeps(c, s, t, conn.(pc := ReleaseLoad(false))); }
    case TryHave(data) =>
      if s.have[conn.current.value] { DropKeeps(c, s, t, Idle); } else { HaveKeeps(c, s, t, data); }
    case Write(data, k, pos) => WriteKeeps(c, s, t, data, k, pos);
    case AddBytes => AddBytesKeeps(c, s, t);
    case AddCount => AddCountKeeps(c, s, t);
    case ReleaseLoad(closing) =>
      if s.have[conn.current.value] { DropKeeps(c, s, t, AfterAbort(closing)); }
      else { MoveKeeps(c, s, t, conn.(pc := ReleaseStore(closing))); }
    case ReleaseStore(closing) => ReleaseKeeps(c, s, t, AfterAbort(closing));
  }

  lemma InvariantShape(c: Config, s: State, t: nat)
    requires Invariant(c, s) && t in s.conns
    ensures ShapeOk(c, s) && ConnShape(c, s.conns[t])
  {
  }

  lemma SearchKeeps(c: Config, s: State, t: nat)
    requires Invariant(c, s) && t in s.conns && (s.conns[t].pc.Scan? || s.conns[t].pc.Endgame?)
    ensures Invariant(c, StepConn(c, s, t))
  {
    hide Flat, Sum, ClaimsOk, ManagerLength, Shaped, ValidLayout, StagesOk, WritersOk, Invariant, Tallied;
    assert ShapeOk(c, s) && ConnShape(c, s.conns[t]) by { InvariantShape(c, s, t); }
    var conn := s.conns[t];
    var i := conn.pc.i;
    if i >= NumPieces(c) {
      MoveKeeps(c, s, t, conn.(pc := if conn.pc.Scan? then Endgame(0) else Idle));
    } else if !Offers(conn, i) || s.have[i] {
      MoveKeeps(c, s, t, conn.(pc := if conn.pc.Scan? then Scan(i + 1) else Endgame(i + 1)));
    } else if conn.pc.Scan? {
      MoveKeeps(c, s, t, conn.(pc := TryClaim(i)));
    } else {
      PickKeeps(c, s, t, i);
    }
  }

  lemma HandleKeeps(c: Config, s: State, t: nat, event: Event)
    requires Invariant(c, s) && t in s.conns && s.conns[t].pc.Idle?
    ensures Invariant(c, Handle(s, t, event))
  {
    hide Flat, Sum, ClaimsOk, ManagerLength, Shaped, ValidLayout, StagesOk, WritersOk, Invariant, Tallied, Drop;
    assert ShapeOk(c, s) && ConnShape(c, s.conns[t]) by { InvariantShape(c, s, t); }
    var conn := s.conns[t];
    match event
    case Announce(i) =>
      if i < |conn.bitfield| { MoveKeeps(c, s, t, conn.(bitfield := conn.bitfield[i := true])); }
    case Fill => MoveKeeps(c, s, t, conn.(pc := if conn.current.Some? then CheckCurrent else Scan(0)));
    case Choke =>
      if conn.exclusive { MoveKeeps(c, s, t, conn.(pc := ReleaseLoad(false))); } else { DropKeeps(c, s, t, Idle); }
    case Deliver(data) =>
      if conn.current.Some? { MoveKeeps(c, s, t, conn.(pc := Enter(data))); }
    case Disconnect =>
      if conn.exclusive { MoveKeeps(c, s, t, conn.(pc := ReleaseLoad(true))); } else { DropKeeps(c, s, t, Closed); }
  }

  /** Every atomic step of every thread keeps the invariant. */
  lemma ApplyKeeps(c: Config, s: State, a: Action)
    requires Invariant(c, s)
    ensures Invariant(c, Apply(c, s, a))
  {
    hide Flat, Sum, ClaimsOk, ManagerLength, Shaped, ValidLayout, StagesOk, WritersOk, Invariant, Tallied,
         StepConn, Handle, WriteFault, Put;
    if a.t in s.conns {
      StepKeeps(c, s, a.t);
      if s.conns[a.t].pc.Idle? && a.Receive? {
        HandleKeeps(c, s, a.t, a.event);
      }
      if s.conns[a.t].pc.Write? && a.WriteFails? {
        var pc := s.conns[a.t].pc;
        FaultKeeps(c, s, a.t, pc.data, pc.k, pc.pos, a.torn);
      }
    } else {
      ConnectKeeps(c, s, a.t);
    }
  }

  lemma {:induction false} RunKeeps(c: Config, s: State, actions: seq<Action>)
    requires Invariant(c, s)
    ensures Invariant(c, Run(c, s, actions))
    decreases |actions|
  {
    hide Invariant, Apply;
    if actions != [] {
      ApplyKeeps(c, s, actions[0]);
      RunKeeps(c, Apply(c, s, actions[0]), actions[1..]);
    }
  }
}
