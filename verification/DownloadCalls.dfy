/** What each message does to the whole download when the thread that handles it is then left
    alone, from every state the protocol can be in. */
module DownloadCalls {
  import opened Common
  import opened Disk
  import opened Download
  import opened DownloadSafety
  import opened DownloadTheorems
  import opened Pieces
  import DownloadLiveness

  /** Thread t handles an event and takes k steps, with nobody else moving. */
  function Alone(c: Download.Config, s: State, t: nat, event: Event, k: nat): (r: State) {
    Run(c, s, [Receive(t, event)] + Steps(t, k))
  }

  ghost predicate Ready(c: Download.Config, s: State, t: nat) {
    Invariant(c, s) && t in s.conns && s.conns[t].pc.Idle?
  }

  /** No piece, byte or file changed. */
  predicate SameData(s: State, r: State) {
    && r.have == s.have && r.stage == s.stage && r.contents == s.contents
    && r.bytes == s.bytes && r.count == s.count
  }

  /** The connection has given its piece up and is at `next`, everybody else is where they were,
      and a claim is free again exactly if this connection held it and the piece is not had. */
  ghost predicate LetGo(s: State, r: State, t: nat, next: Pc) {
    && SameData(s, r)
    && t in s.conns && r.conns == s.conns[t := Conn(next, s.conns[t].bitfield, None, false)]
    && |r.claimed| == |s.claimed| == |s.have|
    && (forall i :: 0 <= i < |s.claimed| ==>
          r.claimed[i] == (s.claimed[i] && !(Holds(s.conns[t], i) && !s.have[i])))
  }

  /** The piece is still missing and the buffer has its hash. */
  predicate Accepts(c: Download.Config, s: State, i: nat, data: seq<Byte>) {
    i < NumPieces(c) && i < |s.have| && !s.have[i] && c.sha(data) == c.hashes[i]
  }

  // ---------------------------------------------------------------------------
  // Runs of one thread
  // ---------------------------------------------------------------------------

  lemma RestStep(c: Download.Config, s: State, t: nat)
    requires t in s.conns && (s.conns[t].pc.Idle? || s.conns[t].pc.Closed?)
    ensures Apply(c, s, Step(t)) == s
  {
    hide ShapeOk;
  }

  lemma {:induction false} AtRest(c: Download.Config, s: State, t: nat, k: nat)
    requires t in s.conns && (s.conns[t].pc.Idle? || s.conns[t].pc.Closed?)
    ensures Run(c, s, Steps(t, k)) == s
  {
    hide Apply;
    if k > 0 {
      assert Steps(t, k)[1..] == Steps(t, k - 1);
      RestStep(c, s, t);
      AtRest(c, s, t, k - 1);
    }
  }

  lemma Handled(c: Download.Config, s: State, t: nat, event: Event, k: nat)
    requires Ready(c, s, t)
    ensures ShapeOk(c, s) && ConnShape(c, s.conns[t])
    ensures Alone(c, s, t, event, k) == Run(c, Handle(s, t, event), Steps(t, k))
  {
    hide Run, Handle;
    Unroll(c, s, Receive(t, event), Steps(t, k));
  }

  lemma DroppedLetsGo(s: State, t: nat, next: Pc)
    requires t in s.conns && |s.claimed| == |s.have|
    requires forall i :: 0 <= i < |s.claimed| && Holds(s.conns[t], i) ==> s.have[i]
    ensures LetGo(s, Drop(s, t, next), t, next)
  {
  }

  /** abort_piece and the reset behind it. */
  lemma ReleaseAlone(c: Download.Config, s: State, t: nat, closing: bool, k: nat)
    requires ShapeOk(c, s) && t in s.conns && ConnShape(c, s.conns[t]) && s.conns[t].pc == ReleaseLoad(closing) && k >= 2
    ensures LetGo(s, Run(c, s, Steps(t, k)), t, AfterAbort(closing))
  {
    hide Run, Steps, ValidLayout, Shaped;
    var s1 := StepConn(c, s, t);
    OneMore(c, s, t, k - 1);
    if s.have[s.conns[t].current.value] {
      DroppedLetsGo(s, t, AfterAbort(closing));
      AtRest(c, s1, t, k - 1);
    } else {
      OneMore(c, s1, t, k - 2);
      var s2 := StepConn(c, s1, t);
      AtRest(c, s2, t, k - 2);
      assert s2.conns == s.conns[t := Conn(AfterAbort(closing), s.conns[t].bitfield, None, false)];
    }
  }

  lemma LetGoFrom(s: State, s1: State, r: State, t: nat, pc: Pc, next: Pc)
    requires t in s.conns && s1 == Goto(s, t, pc) && LetGo(s1, r, t, next)
    ensures LetGo(s, r, t, next)
  {
    assert s1.conns[t := r.conns[t]] == s.conns[t := r.conns[t]];
  }

  // ---------------------------------------------------------------------------
  // Giving a piece up
  // ---------------------------------------------------------------------------

  /** A choke: the piece is dropped and its claim released. */
  lemma ChokeAlone(c: Download.Config, s: State, t: nat, k: nat)
    requires Ready(c, s, t) && k >= 2
    ensures LetGo(s, Alone(c, s, t, Choke, k), t, Idle)
  {
    hide Run, Steps, Invariant, Alone, ValidLayout, Shaped, LetGo, StepConn;
    Handled(c, s, t, Choke, k);
    if s.conns[t].exclusive {
      var s1 := Goto(s, t, ReleaseLoad(false));
      ReleaseAlone(c, s1, t, false, k);
      LetGoFrom(s, s1, Alone(c, s, t, Choke, k), t, ReleaseLoad(false), Idle);
    } else {
      DroppedLetsGo(s, t, Idle);
      AtRest(c, Drop(s, t, Idle), t, k);
    }
  }

  /** The end of a connection: the same, and the connection is gone for good. */
  lemma DisconnectAlone(c: Download.Config, s: State, t: nat, k: nat)
    requires Ready(c, s, t) && k >= 2
    ensures LetGo(s, Alone(c, s, t, Disconnect, k), t, Closed)
  {
    hide Run, Steps, Invariant, Alone, ValidLayout, Shaped, LetGo, StepConn;
    Handled(c, s, t, Disconnect, k);
    if s.conns[t].exclusive {
      var s1 := Goto(s, t, ReleaseLoad(true));
      ReleaseAlone(c, s1, t, true, k);
      LetGoFrom(s, s1, Alone(c, s, t, Disconnect, k), t, ReleaseLoad(true), Closed);
    } else {
      DroppedLetsGo(s, t, Closed);
      AtRest(c, Drop(s, t, Closed), t, k);
    }
  }

  /** A finished buffer of the wrong hash, or one for a piece that is had already: nothing is stored or
      counted, and the claim is released unless the piece is had. */
  lemma RejectedAlone(c: Download.Config, s: State, t: nat, data: seq<Byte>, k: nat)
    requires Ready(c, s, t) && k >= 4
    requires forall i: nat :: i < NumPieces(c) && s.conns[t].current == Some(i) ==> !Accepts(c, s, i, data)
    ensures LetGo(s, Alone(c, s, t, Deliver(data), k), t, Idle)
  {
    hide Run, Steps, Invariant, Alone, ValidLayout, Shaped;
    Handled(c, s, t, Deliver(data), k);
    var conn := s.conns[t];
    if conn.current.None? {
      AtRest(c, s, t, k);
      assert s.conns[t := conn] == s.conns;
    } else {
      EnterRejected(c, Goto(s, t, Enter(data)), t, data, k);
      LetGoFrom(s, Goto(s, t, Enter(data)), Alone(c, s, t, Deliver(data), k), t, Enter(data), Idle);
    }
  }

  lemma EnterRejected(c: Download.Config, s: State, t: nat, data: seq<Byte>, k: nat)
    requires ShapeOk(c, s) && t in s.conns && ConnShape(c, s.conns[t]) && s.conns[t].pc == Enter(data) && k >= 4
    requires !Accepts(c, s, s.conns[t].current.value, data)
    ensures LetGo(s, Run(c, s, Steps(t, k)), t, Idle)
  {
    hide Run, Steps, ValidLayout, Shaped;
    OneMore(c, s, t, k - 1);
    var r := Run(c, s, Steps(t, k));
    if s.have[s.conns[t].current.value] {
      DroppedLetsGo(s, t, Idle);
      AtRest(c, Drop(s, t, Idle), t, k - 1);
    } else {
      var s1 := Goto(s, t, Recheck);
      OneMore(c, s1, t, k - 2);
      if s.conns[t].exclusive {
        var s2 := Goto(s1, t, ReleaseLoad(false));
        ReleaseAlone(c, s2, t, false, k - 2);
        LetGoFrom(s1, s2, r, t, ReleaseLoad(false), Idle);
      } else {
        DroppedLetsGo(s1, t, Idle);
        AtRest(c, Drop(s1, t, Idle), t, k - 2);
      }
      LetGoFrom(s, s1, r, t, Recheck, Idle);
    }
  }

  /** A thread anywhere in complete_piece that meets a piece somebody else has won gives it up and leaves
      every claim as it is. */
  lemma LostRaceAlone(c: Download.Config, s: State, t: nat, i: nat, k: nat)
    requires Invariant(c, s) && t in s.conns && s.conns[t].current == Some(i) && i < |s.have| && s.have[i] && k >= 1
    requires s.conns[t].pc.Enter? || s.conns[t].pc.Recheck? || s.conns[t].pc.TryHave?
    ensures LetGo(s, Run(c, s, Steps(t, k)), t, Idle)
    ensures Run(c, s, Steps(t, k)).claimed == s.claimed
  {
    hide Run, Steps, Invariant, ValidLayout, Shaped, LetGo;
    InvariantShape(c, s, t);
    OneMore(c, s, t, k - 1);
    DroppedLetsGo(s, t, Idle);
    AtRest(c, Drop(s, t, Idle), t, k - 1);
  }

  // ---------------------------------------------------------------------------
  // Storing a piece
  // ---------------------------------------------------------------------------

  /** The bytes of the piece are on disk and no other byte of the disk changed. */
  ghost predicate OnlyGains(c: Download.Config, before: seq<seq<Byte>>, after: seq<seq<Byte>>, i: nat, data: seq<Byte>) {
    && ValidLayout(c.layout) && InRange(c.layout, i)
    && |Flat(before)| == |Flat(after)| == c.layout.total
    && SameOutside(c.layout, Flat(before), Flat(after), i)
    && PieceBytes(c.layout, Flat(after), i) == data
  }

  lemma GainsAtEnd(c: Download.Config, flat: seq<Byte>, i: nat, data: seq<Byte>, k: nat)
    requires ValidLayout(c.layout) && |flat| == c.layout.total && Fits(c, i, data)
    requires Progress(c, flat, i, data, k, |data|)
    ensures PieceBytes(c.layout, flat, i) == data
  {
    hide OffsetAt, Contiguous;
    assert data[..|data|] == data;
  }

  lemma GainsLater(c: Download.Config, a: seq<seq<Byte>>, b: seq<seq<Byte>>, d: seq<seq<Byte>>, i: nat, data: seq<Byte>)
    requires |Flat(a)| == c.layout.total && OnlyPiece(c, Flat(a), Flat(b), i) && OnlyGains(c, b, d, i, data)
    ensures OnlyGains(c, a, d, i, data)
  {
    hide Flat, ValidLayout, PieceBytes;
  }

  /** write_piece, left alone at any file. */
  lemma {:induction false} WriteAlone(c: Download.Config, s: State, t: nat, i: nat, data: seq<Byte>) returns (n: nat, contents: seq<seq<Byte>>)
    requires ShapeOk(c, s) && |Flat(s.contents)| == c.layout.total && Fits(c, i, data)
    requires t in s.conns && ConnShape(c, s.conns[t]) && s.conns[t].current == Some(i)
    requires s.conns[t].pc.Write? && s.conns[t].pc.data == data
    requires Progress(c, Flat(s.contents), i, data, s.conns[t].pc.k, s.conns[t].pc.pos)
    ensures Shaped(c.layout, contents) && OnlyGains(c, s.contents, contents, i, data)
    ensures Run(c, s, Steps(t, n))
         == Goto(s, t, AddBytes).(contents := contents, stage := s.stage[i := Written(t)])
    decreases DownloadLiveness.Left(c, s.conns[t].pc)
  {
    hide Run, Steps, ValidLayout, Shaped, Flat, Progress, PieceBytes, OnlyGains, SameOutside, InRange, PieceLength, VisitFile;
    var Write(_, k, pos) := s.conns[t].pc;
    var s1 := StepConn(c, s, t);
    if pos == |data| {
      GainsAtEnd(c, Flat(s.contents), i, data, k);
      contents, n := s.contents, 1;
      NothingTouched(c, Flat(s.contents), i);
      GainsNow(c, contents, i, data);
      OneMore(c, s, t, 0);
      NoMore(c, s1, t);
    } else {
      var rest;
      ReachedInside(c, Flat(s.contents), i, data, k, pos);
      ChunkProgress(c, s, t, data, k, pos);
      DownloadLiveness.NextFile(c, s, t, data, k, pos);
      rest, contents := WriteAlone(c, s1, t, i, data);
      GainsLater(c, s.contents, s1.contents, contents, i, data);
      OneMore(c, s, t, rest);
      n := rest + 1;
    }
  }

  lemma ReachedInside(c: Download.Config, flat: seq<Byte>, i: nat, data: seq<Byte>, k: nat, pos: nat)
    requires ValidLayout(c.layout) && |flat| == c.layout.total && Fits(c, i, data) && Progress(c, flat, i, data, k, pos)
    ensures pos <= |data|
  {
    hide OffsetAt, Contiguous;
  }

  lemma GainsNow(c: Download.Config, contents: seq<seq<Byte>>, i: nat, data: seq<Byte>)
    requires ValidLayout(c.layout) && |Flat(contents)| == c.layout.total && InRange(c.layout, i)
    requires OnlyPiece(c, Flat(contents), Flat(contents), i) && PieceBytes(c.layout, Flat(contents), i) == data
    ensures OnlyGains(c, contents, contents, i, data)
  {
  }

  /** The piece is had, on disk and counted; the connection is free for the next one. */
  ghost predicate Kept(c: Download.Config, s: State, r: State, t: nat, i: nat, data: seq<Byte>) {
    && i < |s.have| && r.have == s.have[i := true] && r.claimed == s.claimed
    && i < |s.stage| && r.stage == s.stage[i := Counted]
    && r.bytes == s.bytes + ManagerLength(c, i) && r.count == s.count + 1
    && OnlyGains(c, s.contents, r.contents, i, data)
    && t in s.conns && r.conns == s.conns[t := Conn(Idle, s.conns[t].bitfield, None, false)]
  }

  lemma CountersAlone(c: Download.Config, s: State, t: nat, i: nat)
    requires ShapeOk(c, s) && t in s.conns && ConnShape(c, s.conns[t]) && s.conns[t].pc.AddBytes? && s.conns[t].current == Some(i)
    ensures var r := Run(c, s, Steps(t, 2));
            && r.have == s.have && r.claimed == s.claimed && r.contents == s.contents
            && r.stage == s.stage[i := Counted]
            && r.bytes == s.bytes + ManagerLength(c, i) && r.count == s.count + 1
            && r.conns == s.conns[t := Conn(Idle, s.conns[t].bitfield, None, false)]
  {
    hide Run, Steps, ValidLayout, Shaped, ManagerLength;
    var s1 := StepConn(c, s, t);
    OneMore(c, s, t, 1);
    OneMore(c, s1, t, 0);
    NoMore(c, StepConn(c, s1, t), t);
    assert s.stage[i := Banked(t)][i := Counted] == s.stage[i := Counted];
  }

  lemma {:induction false} StepsThenSteps(c: Download.Config, s: State, t: nat, m: nat, n: nat)
    ensures Run(c, s, Steps(t, m + n)) == Run(c, Run(c, s, Steps(t, m)), Steps(t, n))
    decreases m
  {
    hide Apply;
    if m > 0 {
      assert Steps(t, m + n)[1..] == Steps(t, m - 1 + n) && Steps(t, m)[1..] == Steps(t, m - 1);
      StepsThenSteps(c, Apply(c, s, Step(t)), t, m - 1, n);
    }
  }

  /** From the hand-over to the start of the write. */
  lemma AcceptedBegins(c: Download.Config, s: State, t: nat, i: nat, data: seq<Byte>, k: nat)
    requires Ready(c, s, t) && s.conns[t].current == Some(i) && Accepts(c, s, i, data)
    ensures i < |s.stage|
    ensures Alone(c, s, t, Deliver(data), k + 2)
         == Run(c, Goto(s, t, Write(data, 0, 0)).(have := s.have[i := true], stage := s.stage[i := Writing(t)]), Steps(t, k))
  {
    hide Run, Steps, Invariant, Alone, ValidLayout, Shaped, StepConn, ConnShape, Goto;
    Handled(c, s, t, Deliver(data), k + 2);
    EnterAccepts(c, s, t, i, data, k + 1);
    TryHaveWins(c, s, t, i, data, k);
  }

  lemma EnterAccepts(c: Download.Config, s: State, t: nat, i: nat, data: seq<Byte>, k: nat)
    requires ShapeOk(c, s) && t in s.conns && ConnShape(c, s.conns[t]) && s.conns[t].current == Some(i) && Accepts(c, s, i, data)
    ensures Run(c, Goto(s, t, Enter(data)), Steps(t, k + 1)) == Run(c, Goto(s, t, TryHave(data)), Steps(t, k))
  {
    hide Run, Steps, ValidLayout, Shaped, WriteStep;
    OneMore(c, Goto(s, t, Enter(data)), t, k);
    assert Goto(s, t, Enter(data)).conns[t := s.conns[t].(pc := TryHave(data))] == Goto(s, t, TryHave(data)).conns;
  }

  lemma TryHaveWins(c: Download.Config, s: State, t: nat, i: nat, data: seq<Byte>, k: nat)
    requires ShapeOk(c, s) && t in s.conns && ConnShape(c, s.conns[t]) && s.conns[t].current == Some(i) && Accepts(c, s, i, data)
    ensures Run(c, Goto(s, t, TryHave(data)), Steps(t, k + 1))
         == Run(c, Goto(s, t, Write(data, 0, 0)).(have := s.have[i := true], stage := s.stage[i := Writing(t)]), Steps(t, k))
  {
    hide Run, Steps, ValidLayout, Shaped, WriteStep;
    OneMore(c, Goto(s, t, TryHave(data)), t, k);
    assert Goto(s, t, TryHave(data)).conns[t := s.conns[t].(pc := Write(data, 0, 0))]
        == s.conns[t := s.conns[t].(pc := Write(data, 0, 0))];
  }

  /** A finished buffer of the right hash and size for a missing piece is stored and counted. */
  lemma AcceptedAlone(c: Download.Config, s: State, t: nat, i: nat, data: seq<Byte>) returns (k: nat)
    requires Ready(c, s, t) && s.conns[t].current == Some(i) && Accepts(c, s, i, data) && Fits(c, i, data)
    ensures Kept(c, s, Alone(c, s, t, Deliver(data), k), t, i, data)
  {
    hide Run, Steps, Invariant, Alone, ValidLayout, Shaped, Flat, Progress, OnlyGains, ManagerLength, StepConn,
         Kept, Fits;
    var s1 := WriteBegins(c, s, t, i, data);
    var n, contents := WriteAlone(c, s1, t, i, data);
    StepsThenSteps(c, s1, t, n, 2);
    k := n + 4;
    AcceptedBegins(c, s, t, i, data, n + 2);
    CountsWritten(c, s, s1, t, i, data, contents);
  }

  lemma CountsWritten(c: Download.Config, s: State, s1: State, t: nat, i: nat, data: seq<Byte>, contents: seq<seq<Byte>>)
    requires t in s.conns && i < |s.have| && i < |s.stage| && s.conns[t].current == Some(i)
    requires s1 == Goto(s, t, Write(data, 0, 0)).(have := s.have[i := true], stage := s.stage[i := Writing(t)])
    requires ShapeOk(c, s1) && ConnShape(c, s1.conns[t])
    requires Shaped(c.layout, contents) && OnlyGains(c, s.contents, contents, i, data)
    ensures var s2 := Goto(s1, t, AddBytes).(contents := contents, stage := s1.stage[i := Written(t)]);
            Kept(c, s, Run(c, s2, Steps(t, 2)), t, i, data)
  {
    hide Run, Steps, ValidLayout, Shaped, OnlyGains, ManagerLength, StepConn;
    var s2 := Goto(s1, t, AddBytes).(contents := contents, stage := s1.stage[i := Written(t)]);
    CountersAlone(c, s2, t, i);
    var r := Run(c, s2, Steps(t, 2));
    assert r.conns == s.conns[t := Conn(Idle, s.conns[t].bitfield, None, false)];
    assert r.stage == s.stage[i := Counted];
  }

  lemma WriteBegins(c: Download.Config, s: State, t: nat, i: nat, data: seq<Byte>) returns (s1: State)
    requires Ready(c, s, t) && s.conns[t].current == Some(i) && Accepts(c, s, i, data) && Fits(c, i, data)
    ensures i < |s.stage| && s1 == Goto(s, t, Write(data, 0, 0)).(have := s.have[i := true], stage := s.stage[i := Writing(t)])
    ensures ShapeOk(c, s1) && |Flat(s1.contents)| == c.layout.total && ConnShape(c, s1.conns[t])
    ensures Progress(c, Flat(s1.contents), i, data, 0, 0)
  {
    hide Flat, Shaped, Contiguous;
    InvariantShape(c, s, t);
    PieceFits(c.layout, i);
    s1 := Goto(s, t, Write(data, 0, 0)).(have := s.have[i := true], stage := s.stage[i := Writing(t)]);
  }

  /** A buffer of the right hash that does not fit the piece: write_piece throws. The piece stays
      marked and claimed, is never counted, nothing is written, and the connection is gone. */
  lemma OversizedAlone(c: Download.Config, s: State, t: nat, i: nat, data: seq<Byte>, k: nat)
    requires Ready(c, s, t) && s.conns[t].current == Some(i) && Accepts(c, s, i, data) && !Fits(c, i, data) && k >= 5
    ensures var r := Alone(c, s, t, Deliver(data), k);
            && i < |s.stage| && r.have == s.have[i := true] && r.claimed == s.claimed && r.stage == s.stage[i := Lost]
            && r.bytes == s.bytes && r.count == s.count && r.contents == s.contents
            && r.conns == s.conns[t := Conn(Closed, s.conns[t].bitfield, None, false)]
  {
    hide Run, Steps, Invariant, Alone, ValidLayout, Shaped, Fits, StepConn;
    AcceptedBegins(c, s, t, i, data, k - 2);
    InvariantShape(c, s, t);
    var s1 := Goto(s, t, Write(data, 0, 0)).(have := s.have[i := true], stage := s.stage[i := Writing(t)]);
    ThrowAlone(c, s1, t, i, k - 2);
    assert s.stage[i := Writing(t)][i := Lost] == s.stage[i := Lost];
  }

  lemma ThrowAlone(c: Download.Config, s: State, t: nat, i: nat, k: nat)
    requires ShapeOk(c, s) && t in s.conns && ConnShape(c, s.conns[t]) && s.conns[t].current == Some(i) && s.have[i]
    requires s.conns[t].pc.Write? && !Fits(c, i, s.conns[t].pc.data) && k >= 3
    ensures var r := Run(c, s, Steps(t, k));
            && r.have == s.have && r.claimed == s.claimed && r.stage == s.stage[i := Lost]
            && r.bytes == s.bytes && r.count == s.count && r.contents == s.contents
            && r.conns == s.conns[t := Conn(Closed, s.conns[t].bitfield, None, false)]
  {
    hide Run, Steps, ValidLayout, Shaped, Fits, Unwind;
    OneMore(c, s, t, k - 1);
    UnwindAlone(c, s.(stage := s.stage[i := Lost]), t, i, k - 1);
  }

  /** An I/O error while a chunk is written: whatever bytes the file was left with are there, every other
      byte is as it was, and the rest is as above. */
  lemma FaultAlone(c: Download.Config, s: State, t: nat, i: nat, torn: seq<Byte>, start: nat, k: nat)
    requires Invariant(c, s) && t in s.conns && s.conns[t].pc.Write? && s.conns[t].current == Some(i)
    requires var Write(data, file, pos) := s.conns[t].pc;
             && Fits(c, i, data) && pos < |data| && file < |c.layout.files|
             && VisitFile(c.layout.files[file], PieceOffset(c.layout, i) + pos, |data| - pos) == Touch(start, |torn|)
    requires k >= 2
    ensures var r, at := Run(c, s, [WriteFails(t, torn)] + Steps(t, k)), PieceOffset(c.layout, i) + s.conns[t].pc.pos;
            && at + |torn| <= |Flat(s.contents)| && Flat(r.contents) == Patch(Flat(s.contents), at, torn)
            && i < |s.stage| && r.have == s.have && r.claimed == s.claimed && r.stage == s.stage[i := Lost]
            && r.bytes == s.bytes && r.count == s.count
            && r.conns == s.conns[t := Conn(Closed, s.conns[t].bitfield, None, false)]
  {
    InvariantShape(c, s, t);
    WriterHasPiece(c, s, t);
    var s1 := TornChunk(c, s, t, i, torn, start);
    hide Run, Steps, Invariant, Flat, Apply, ConnShape, Patch, StepConn;
    Unroll(c, s, WriteFails(t, torn), Steps(t, k));
    UnwindAlone(c, s1, t, i, k);
  }

  lemma WriterHasPiece(c: Download.Config, s: State, t: nat)
    requires Invariant(c, s) && t in s.conns && s.conns[t].pc.Write? && s.conns[t].current.Some?
    ensures ConnShape(c, s.conns[t])
    ensures var i, Write(data, k, pos) := s.conns[t].current.value, s.conns[t].pc;
            i < NumPieces(c) && s.have[i] && Progress(c, Flat(s.contents), i, data, k, pos)
  {
    hide Flat, Progress, ClaimsOk, Tallied;
    assert WriterOk(c, s.stage, Flat(s.contents), t, s.conns[t]);
    assert StageOk(c, s.have[s.conns[t].current.value], s.stage[s.conns[t].current.value], s.conns, Flat(s.contents), s.conns[t].current.value);
  }

  /** The failing write itself. */
  lemma TornChunk(c: Download.Config, s: State, t: nat, i: nat, torn: seq<Byte>, start: nat) returns (s1: State)
    requires ShapeOk(c, s) && |Flat(s.contents)| == c.layout.total
    requires t in s.conns && ConnShape(c, s.conns[t]) && s.conns[t].pc.Write? && s.conns[t].current == Some(i)
    requires var Write(data, file, pos) := s.conns[t].pc;
             && Fits(c, i, data) && pos < |data| && file < |c.layout.files| && Progress(c, Flat(s.contents), i, data, file, pos)
             && VisitFile(c.layout.files[file], PieceOffset(c.layout, i) + pos, |data| - pos) == Touch(start, |torn|)
    ensures var at := PieceOffset(c.layout, i) + s.conns[t].pc.pos;
            && at + |torn| <= |Flat(s.contents)| && Flat(s1.contents) == Patch(Flat(s.contents), at, torn)
            && Shaped(c.layout, s1.contents)
            && s1 == s.(contents := s1.contents, stage := s.stage[i := Lost])
            && Apply(c, s, WriteFails(t, torn)) == Unwind(s1, t)
  {
    hide Flat, OffsetAt, PieceOffset, PieceLength, InRange, Patch, Unwind;
    var Write(data, file, pos) := s.conns[t].pc;
    var l, base := c.layout, PieceOffset(c.layout, i);
    VisitAdvances(l, file, base, pos, |data|);
    FilePatch(l, s.contents, file, start, torn);
    s1 := s.(contents := s.contents[file := Patch(s.contents[file], start, torn)], stage := s.stage[i := Lost]);
  }

  /** The destructor of a connection whose piece is had. */
  lemma UnwindAlone(c: Download.Config, s: State, t: nat, i: nat, k: nat)
    requires ShapeOk(c, s) && t in s.conns && ConnShape(c, s.conns[t]) && s.conns[t].current == Some(i) && s.have[i] && k >= 2
    ensures var r := Run(c, Unwind(s, t), Steps(t, k));
            && SameData(s, r) && r.claimed == s.claimed
            && r.conns == s.conns[t := Conn(Closed, s.conns[t].bitfield, None, false)]
  {
    hide Run, Steps, ValidLayout, Shaped;
    var s1 := Unwind(s, t);
    if s.conns[t].exclusive {
      OneMore(c, s1, t, k - 1);
      AtRest(c, StepConn(c, s1, t), t, k - 1);
    } else {
      AtRest(c, s1, t, k);
    }
  }

  // ---------------------------------------------------------------------------
  // Choosing a piece
  // ---------------------------------------------------------------------------

  /** The connection has taken the pick, and a claim if it is exclusive. */
  ghost predicate Took(s: State, r: State, t: nat, pick: Pick)
    requires t in s.conns && |s.have| == |s.claimed|
  {
    && SameData(s, r) && GoodPick(s.have, s.claimed, s.conns[t].bitfield, pick)
    && r.claimed == (if pick.Exclusive? then s.claimed[pick.index := true] else s.claimed)
    && r.conns == s.conns[t := Conn(Idle, s.conns[t].bitfield, if pick.Nothing? then None else Some(pick.index), pick.Exclusive?)]
  }

  lemma ScanTakes(c: Download.Config, s: State, s1: State, t: nat) returns (k: nat, pick: Pick)
    requires ShapeOk(c, s1) && t in s.conns && SameData(s, s1) && s1.claimed == s.claimed
    requires s1.conns == s.conns[t := Conn(Scan(0), s.conns[t].bitfield, None, false)]
    ensures Took(s, Run(c, s1, Steps(t, k)), t, pick)
  {
    hide Run, Steps, ValidLayout, Shaped;
    k, pick := ScanAlone(c, s1, t);
    hide GoodPick;
  }

  /** fill_requests keeps a piece that is still missing. Otherwise it takes the one good pick there is,
      and the claim of a piece it drops because somebody else has it stays set. */
  lemma FillAlone(c: Download.Config, s: State, t: nat) returns (k: nat, pick: Pick)
    requires Ready(c, s, t)
    ensures ShapeOk(c, s) && ConnShape(c, s.conns[t])
    ensures var r, current := Alone(c, s, t, Fill, k), s.conns[t].current;
            if current.Some? && !s.have[current.value] then r == s else Took(s, r, t, pick)
  {
    hide Run, Steps, Invariant, Alone, ValidLayout, Shaped, Took, StepConn;
    Handled(c, s, t, Fill, 0);
    pick := Nothing;
    if s.conns[t].current.None? {
      k, pick := ScanTakes(c, s, Goto(s, t, Scan(0)), t);
    } else if s.have[s.conns[t].current.value] {
      k, pick := DropTakes(c, s, t);
    } else {
      k := 1;
      KeepsCurrent(c, s, t);
    }
    hide ConnShape, Goto;
    Handled(c, s, t, Fill, k);
  }

  lemma KeepsCurrent(c: Download.Config, s: State, t: nat)
    requires ShapeOk(c, s) && t in s.conns && ConnShape(c, s.conns[t]) && s.conns[t].pc.Idle?
    requires s.conns[t].current.Some? && !s.have[s.conns[t].current.value]
    ensures Run(c, Goto(s, t, CheckCurrent), Steps(t, 1)) == s
  {
    hide Run, Steps, ValidLayout, Shaped, WriteStep;
    var s1 := Goto(s, t, CheckCurrent);
    var s2 := StepConn(c, s1, t);
    OneMore(c, s1, t, 0);
    NoMore(c, s2, t);
    assert s2.conns == s.conns;
  }

  lemma DropTakes(c: Download.Config, s: State, t: nat) returns (k: nat, pick: Pick)
    requires ShapeOk(c, s) && t in s.conns && ConnShape(c, s.conns[t]) && s.conns[t].pc.Idle?
    requires s.conns[t].current.Some? && s.have[s.conns[t].current.value]
    ensures Took(s, Run(c, Goto(s, t, CheckCurrent), Steps(t, k)), t, pick)
  {
    hide Run, Steps, ValidLayout, Shaped, WriteStep, Took;
    var s1 := Goto(s, t, CheckCurrent);
    var s2 := StepConn(c, s1, t);
    assert s2.conns == s.conns[t := Conn(Scan(0), s.conns[t].bitfield, None, false)];
    k, pick := ScanTakes(c, s, s2, t);
    OneMore(c, s1, t, k);
    k := k + 1;
  }

  /** A have or bitfield message adds one piece to what the peer offers. */
  lemma AnnounceAlone(c: Download.Config, s: State, t: nat, i: nat, k: nat)
    requires Ready(c, s, t)
    ensures var r, conn := Alone(c, s, t, Announce(i), k), s.conns[t];
            && SameData(s, r) && r.claimed == s.claimed && t in r.conns
            && r.conns == s.conns[t := Conn(Idle, r.conns[t].bitfield, conn.current, conn.exclusive)]
            && |r.conns[t].bitfield| == |conn.bitfield|
            && forall j: nat :: Offers(r.conns[t], j) <==> Offers(conn, j) || (j == i && i < |conn.bitfield|)
  {
    hide Run, Steps, Invariant, Alone, ValidLayout, Shaped;
    Handled(c, s, t, Announce(i), k);
    AtRest(c, Handle(s, t, Announce(i)), t, k);
    assert s.conns[t := s.conns[t]] == s.conns;
  }
}
