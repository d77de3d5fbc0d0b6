/** Exactly when a download can still be completed, from any reachable state of the machine with the
    mutexes of the disk writer and with real buffers. */
module DownloadLiveness {
  import opened Common
  import opened Disk
  import opened Download
  import opened DownloadSafety
  import opened DownloadTheorems
  import opened LockedDownload
  import opened Pieces

  // ---------------------------------------------------------------------------
  // The condition
  // ---------------------------------------------------------------------------

  /** Bytes that a peer could send for the piece: the right number of them, with the right hash. */
  predicate Genuine(c: Download.Config, i: nat, data: seq<Byte>) {
    i < NumPieces(c) && Fits(c, i, data) && c.sha(data) == c.hashes[i]
  }

  ghost predicate HasGenuine(c: Download.Config, i: nat) {
    exists data :: Genuine(c, i, data)
  }

  /** Every piece has genuine bytes, its two lengths agree, and its block count does not wrap. */
  ghost predicate Attainable(c: Download.Config) {
    forall i :: 0 <= i < NumPieces(c) ==> HasGenuine(c, i) && Sound(c, i)
  }

  /** No write has thrown. */
  ghost predicate NoneLost(s: State) {
    forall i :: 0 <= i < |s.stage| ==> !s.stage[i].Lost?
  }

  ghost predicate CanComplete(c: Download.Config, w: World) {
    exists acts :: RunAll(c, w, acts).d.count == NumPieces(c)
  }

  // ---------------------------------------------------------------------------
  // Necessary
  // ---------------------------------------------------------------------------

  /** A complete download holds genuine bytes for every piece, and every piece is sound. */
  lemma CompleteIsAttainable(c: Download.Config, w: World)
    requires WorldOk(c, w) && w.d.count == NumPieces(c)
    ensures Attainable(c)
  {
    hide Flat, ClaimsOk, WritersOk, ConnsOk, Shaped, Tallied, OffsetAt, Contiguous, Sound;
    var s := w.d;
    CountBound(c, s);
    forall i | 0 <= i < NumPieces(c)
      ensures HasGenuine(c, i) && Sound(c, i)
    {
      assert IsStored(s.stage[i]);
      assert StageOk(c, s.have[i], s.stage[i], s.conns, Flat(s.contents), i);
      PieceFits(c.layout, i);
      assert Genuine(c, i, PieceBytes(c.layout, Flat(s.contents), i));
    }
  }

  lemma CompletingNeeds(c: Download.Config, w: World, acts: seq<Act>)
    requires WorldOk(c, w) && RunAll(c, w, acts).d.count == NumPieces(c)
    ensures NoneLost(w.d) && Attainable(c)
  {
    hide Attainable, RunAll, Run, Real, CallsOk, OneHolder, Invariant;
    RunAllKeeps(c, w, acts);
    CompleteIsAttainable(c, RunAll(c, w, acts));
    var actions := RunRefines(c, w, acts);
    StageCount(c, w.d);
    forall i | 0 <= i < |w.d.stage|
      ensures !w.d.stage[i].Lost?
    {
      if w.d.stage[i].Lost? {
        LostForever(c, w.d, actions, i);
      }
    }
  }

  // ---------------------------------------------------------------------------
  // A call that nobody stands in the way of runs to its end
  // ---------------------------------------------------------------------------

  /** The write in progress, if any, will not throw for the size of its buffer. */
  predicate WriteFits(c: Download.Config, conn: Conn) {
    conn.pc.Write? && conn.current.Some? ==> Fits(c, conn.current.value, conn.pc.data)
  }

  lemma RunAllUnroll(c: Download.Config, w: World, act: Act, rest: seq<Act>)
    ensures RunAll(c, w, [act] + rest) == RunAll(c, Go(c, w, act), rest)
  {
    hide Go;
    assert ([act] + rest)[1..] == rest;
  }

  lemma {:induction false} RunAllConcat(c: Download.Config, w: World, a: seq<Act>, b: seq<Act>)
    ensures RunAll(c, w, a + b) == RunAll(c, RunAll(c, w, a), b)
    decreases |a|
  {
    hide Go;
    if a == [] {
      assert a + b == b;
    } else {
      RunAllConcat(c, Go(c, w, a[0]), a[1..], b);
      assert (a + b)[1..] == a[1..] + b;
    }
  }

  lemma RunAllNothing(c: Download.Config, w: World)
    ensures RunAll(c, w, []) == w
  {
  }

  /** One step of the winner of a piece. */
  lemma WinnerMoves(c: Download.Config, s: State, t: nat)
    requires Invariant(c, s) && t in s.conns && Busy(s.conns[t].pc) && WriteFits(c, s.conns[t])
    ensures var i, r := s.conns[t].current.value, StepConn(c, s, t);
            && i < NumPieces(c) && |s.stage| == NumPieces(c)
            && t in r.conns && r.conns == s.conns[t := r.conns[t]]
            && (s.conns[t].pc.AddCount? ==> r.conns[t].pc.Idle? && r.stage == s.stage[i := Counted])
            && (!s.conns[t].pc.AddCount? ==>
                  && Busy(r.conns[t].pc) && r.conns[t].current == Some(i) && WriteFits(c, r.conns[t])
                  && r.stage == s.stage[i := r.stage[i]]
                  && Left(c, r.conns[t].pc) < Left(c, s.conns[t].pc))
  {
    hide Flat, ClaimsOk, StagesOk, Shaped, Tallied, ManagerLength, Contiguous, OffsetAt, VisitFile, PieceLength,
         PieceOffset, InRange, Patch;
    assert ConnShape(c, s.conns[t]);
    assert WriterOk(c, s.stage, Flat(s.contents), t, s.conns[t]);
    if s.conns[t].pc.Write? {
      var Write(data, k, pos) := s.conns[t].pc;
      if pos < |data| {
        ChunkProgress(c, s, t, data, k, pos);
        NextFile(c, s, t, data, k, pos);
        assert s.stage == s.stage[s.conns[t].current.value := s.stage[s.conns[t].current.value]];
      }
    }
  }

  /** Steps until the piece is counted. */
  function Left(c: Download.Config, pc: Pc): (n: int) {
    match pc
    case Write(data, k, pos) => 2 + if k <= |c.layout.files| then |c.layout.files| - k else 0
    case AddBytes => 1
    case _ => 0
  }

  lemma NextFile(c: Download.Config, s: State, t: nat, data: seq<Byte>, k: nat, pos: nat)
    requires ShapeOk(c, s) && |Flat(s.contents)| == c.layout.total
    requires t in s.conns && s.conns[t].pc == Write(data, k, pos) && ConnShape(c, s.conns[t])
    requires Progress(c, Flat(s.contents), s.conns[t].current.value, data, k, pos)
    requires Fits(c, s.conns[t].current.value, data) && pos < |data|
    ensures k < |c.layout.files|
    ensures var r := StepConn(c, s, t); t in r.conns && r.conns[t].pc.Write? ==> r.conns[t].pc.k == k + 1
  {
    hide Flat, OffsetAt, ManagerLength, PieceOffset, PieceLength, InRange, Patch;
    PieceFits(c.layout, s.conns[t].current.value);
    ChunkLoopEnds(c.layout, k, PieceOffset(c.layout, s.conns[t].current.value), pos, |data|);
  }

  lemma BusyHasPiece(c: Download.Config, conn: Conn)
    requires ConnShape(c, conn) && Busy(conn.pc)
    ensures conn.current.Some?
  {
  }

  /** No other call holds a mutex that this one still needs. */
  ghost predicate Clear(w: World, t: nat)
    requires t in w.calls
  {
    var call := w.calls[t];
    call.phase.Locking? ==>
      forall u, j :: u in w.calls && u != t && call.phase.n <= j < |call.files| ==> call.files[j] !in Held(w.calls[u])
  }

  /** Steps until the call has returned. */
  function Rest(c: Download.Config, w: World, t: nat): (n: int)
    requires t in w.calls && t in w.d.conns
  {
    var call := w.calls[t];
    match call.phase
    case Locking(n) => 2 * |call.files| - n + Left(c, w.d.conns[t].pc) + 4
    case Inside => |call.files| + Left(c, w.d.conns[t].pc) + 3
    case Releasing(n) => |call.files| - n
  }

  /** The next step of a call. */
  function NextAct(w: World, t: nat): (act: Act)
    requires t in w.calls
  {
    match w.calls[t].phase
    case Locking(_) => Lock(t)
    case Inside => if InWrite(w.d, t) then Work(Step(t)) else Return(t)
    case Releasing(_) => Unlock(t)
  }

  /** What a call does to the protocol: a read nothing, a write stores its piece. */
  ghost predicate Passed(s: State, r: State, t: nat) {
    if !InWrite(s, t) then r == s
    else
      && s.conns[t].current.Some? && s.conns[t].current.value < |s.stage|
      && t in r.conns && r.conns == s.conns[t := r.conns[t]]
      && r.conns[t].pc.AddBytes? && r.conns[t].current == s.conns[t].current
      && |r.stage| == |s.stage| && r.stage == s.stage[s.conns[t].current.value := r.stage[s.conns[t].current.value]]
  }

  /** The next step always exists, keeps the way clear and comes nearer to the end. */
  lemma LockAdvances(c: Download.Config, w: World, t: nat)
    requires WorldOk(c, w) && t in w.calls && Clear(w, t) && w.calls[t].phase.Locking?
    ensures var w1 := Go(c, w, Lock(t));
            && t in w1.calls && w1.d == w.d && w1.calls == w.calls[t := w1.calls[t]] && Clear(w1, t)
            && Rest(c, w1, t) < Rest(c, w, t)
  {
    hide Invariant, Real, Left;
    var call := w.calls[t];
    assert CallOk(c, w.d.conns[t], call);
    var n := call.phase.n;
    if n < |call.files| {
      assert Free(w, call.files[n]) by {
        forall u | u in w.calls
          ensures call.files[n] !in Held(w.calls[u])
        {
          if u == t {
            NotBelow(call.files, n);
          }
        }
      }
    }
  }

  lemma NotBelow(files: seq<nat>, n: nat)
    requires Ascending(files) && n < |files|
    ensures files[n] !in files[..n]
  {
  }

  lemma WorkAdvances(c: Download.Config, w: World, t: nat)
    requires WorldOk(c, w) && t in w.calls && w.calls[t].phase.Inside? && InWrite(w.d, t) && WriteFits(c, w.d.conns[t])
    ensures w.d.conns[t].current.Some? && w.d.conns[t].current.value < |w.d.stage|
    ensures var w1, i := Go(c, w, Work(Step(t))), w.d.conns[t].current.value;
            && t in w1.calls && w1.calls == w.calls[t := w1.calls[t]] && Clear(w1, t)
            && t in w1.d.conns && w1.d.conns == w.d.conns[t := w1.d.conns[t]]
            && w1.d.conns[t].current == Some(i) && WriteFits(c, w1.d.conns[t])
            && |w1.d.stage| == |w.d.stage| && w1.d.stage == w.d.stage[i := w1.d.stage[i]]
            && (w1.d.conns[t].pc.Write? || w1.d.conns[t].pc.AddBytes?)
            && (w1.calls[t].phase.Inside? <==> w1.d.conns[t].pc.Write?) && (w1.calls[t].phase.Inside? || w1.calls[t].phase.Releasing?)
            && Rest(c, w1, t) < Rest(c, w, t)
  {
    InvariantShape(c, w.d, t);
    assert w.d.conns[t].current.Some?;
    WinnerMoves(c, w.d, t);
    StepLeads(c, w.d, t);
    assert Apply(c, w.d, Step(t)) == StepConn(c, w.d, t) by { ApplyIsStep(c, w.d, t); }
    hide Invariant, Real, Apply, StepConn, ShapeOk, ConnShape, WriteFits;
    assert w.calls[t := w.calls[t]] == w.calls;
  }

  lemma ApplyIsStep(c: Download.Config, s: State, t: nat)
    requires ShapeOk(c, s) && t in s.conns && ConnShape(c, s.conns[t])
    ensures Apply(c, s, Step(t)) == StepConn(c, s, t)
  {
    hide ShapeOk, ConnShape, StepConn;
  }

  /** A write leads to a write or to the byte counter. */
  lemma StepLeads(c: Download.Config, s: State, t: nat)
    requires ShapeOk(c, s) && t in s.conns && ConnShape(c, s.conns[t]) && s.conns[t].pc.Write?
    ensures t in StepConn(c, s, t).conns && !StepConn(c, s, t).conns[t].pc.AddCount?
  {
    hide ValidLayout, Shaped, VisitFile, Fits, Patch, PieceOffset;
  }

  /** A call that nobody stands in the way of runs to its end: a read changes nothing, a write that fits
      stores its piece. */
  lemma {:induction false} RunThrough(c: Download.Config, w: World, t: nat) returns (acts: seq<Act>)
    requires WorldOk(c, w) && t in w.calls && Clear(w, t) && t in w.d.conns
    requires InWrite(w.d, t) ==> WriteFits(c, w.d.conns[t])
    ensures var r := RunAll(c, w, acts);
            WorldOk(c, r) && r.calls == w.calls - {t} && Passed(w.d, r.d, t)
    decreases Rest(c, w, t)
  {
    hide RunAll, Go, WorldOk, WriteFits;
    var act := NextAct(w, t);
    var w1 := Go(c, w, act);
    GoKeeps(c, w, act);
    if w.calls[t].phase.Releasing? && w.calls[t].phase.n >= |w.calls[t].files| {
      LastUnlock(c, w, t);
      acts := [act];
      RunAllUnroll(c, w, act, []);
      RunAllNothing(c, w1);
      assert [act] + [] == [act];
    } else {
      CallMoves(c, w, t);
      var rest := RunThrough(c, w1, t);
      acts := [act] + rest;
      RunAllUnroll(c, w, act, rest);
      assert w1.calls - {t} == w.calls - {t};
      PassedThen(w.d, w1.d, RunAll(c, w1, rest).d, t);
    }
  }

  lemma LastUnlock(c: Download.Config, w: World, t: nat)
    requires WorldOk(c, w) && t in w.calls && w.calls[t].phase.Releasing? && w.calls[t].phase.n >= |w.calls[t].files|
    ensures Go(c, w, Unlock(t)) == w.(calls := w.calls - {t}) && !InWrite(w.d, t)
  {
    hide Invariant, Real;
  }

  /** Either the protocol did not move, or one write step was made. */
  ghost predicate Partly(s: State, r: State, t: nat) {
    || r == s
    || (&& InWrite(s, t) && s.conns[t].current.Some? && s.conns[t].current.value < |s.stage|
        && t in r.conns && r.conns == s.conns[t := r.conns[t]] && r.conns[t].current == s.conns[t].current
        && (r.conns[t].pc.Write? || r.conns[t].pc.AddBytes?)
        && |r.stage| == |s.stage| && r.stage == s.stage[s.conns[t].current.value := r.stage[s.conns[t].current.value]])
  }

  lemma CallMoves(c: Download.Config, w: World, t: nat)
    requires WorldOk(c, w) && t in w.calls && Clear(w, t) && t in w.d.conns
    requires InWrite(w.d, t) ==> WriteFits(c, w.d.conns[t])
    requires !(w.calls[t].phase.Releasing? && w.calls[t].phase.n >= |w.calls[t].files|)
    ensures var w1 := Go(c, w, NextAct(w, t));
            && t in w1.calls && w1.calls == w.calls[t := w1.calls[t]] && Clear(w1, t) && t in w1.d.conns
            && (InWrite(w1.d, t) ==> WriteFits(c, w1.d.conns[t]))
            && Partly(w.d, w1.d, t) && Rest(c, w1, t) < Rest(c, w, t) && 0 <= Rest(c, w, t)
  {
    hide Invariant, Real, WriteFits, Apply, Left;
    LeftIsPositive(c, w.d.conns[t].pc);
    assert CallOk(c, w.d.conns[t], w.calls[t]);
    if w.calls[t].phase.Locking? {
      LockAdvances(c, w, t);
    } else if w.calls[t].phase.Inside? && InWrite(w.d, t) {
      WorkAdvances(c, w, t);
    }
  }

  lemma LeftIsPositive(c: Download.Config, pc: Pc)
    ensures Left(c, pc) >= 0
  {
  }

  lemma PassedThen(s: State, s1: State, r: State, t: nat)
    requires Partly(s, s1, t) && Passed(s1, r, t)
    ensures Passed(s, r, t)
  {
    if s1 != s && InWrite(s1, t) {
      var i := s.conns[t].current.value;
      assert s.conns[t := s1.conns[t]][t := r.conns[t]] == s.conns[t := r.conns[t]];
      assert s.stage[i := s1.stage[i]][i := r.stage[i]] == s.stage[i := r.stage[i]];
    }
  }

  // ---------------------------------------------------------------------------
  // Some call always has a clear way: the locks are taken in ascending order
  // ---------------------------------------------------------------------------

  /** A call whose way is not clear waits for a mutex above all it holds; follow the holders upwards. */
  lemma {:induction false} FindClear(c: Download.Config, w: World, t: nat, low: nat) returns (u: nat)
    requires WorldOk(c, w) && t in w.calls
    requires low == 0 || low - 1 in Held(w.calls[t])
    ensures u in w.calls && Clear(w, u)
    decreases |c.layout.files| + 1 - low
  {
    hide Invariant, Real, Held, OneHolder;
    assert CallOk(c, w.d.conns[t], w.calls[t]);
    if Clear(w, t) {
      u := t;
    } else {
      var call := w.calls[t];
      var v, j :| v in w.calls && v != t && call.phase.n <= j < |call.files| && call.files[j] in Held(w.calls[v]);
      assert CallOk(c, w.d.conns[v], w.calls[v]);
      HeldAreFiles(w.calls[v], call.files[j]);
      if low > 0 {
        HeldIsBelow(call, low - 1, j);
        HeldAreFiles(call, low - 1);
      }
      u := FindClear(c, w, v, call.files[j] + 1);
    }
  }

  lemma HeldAreFiles(call: Call, f: nat)
    requires f in Held(call)
    ensures f in call.files
  {
    var i :| 0 <= i < |Held(call)| && Held(call)[i] == f;
    var from := if call.phase.Releasing? then Min(call.phase.n, |call.files|) else 0;
    assert Held(call)[i] == call.files[from + i] && call.files[from + i] in call.files;
  }

  lemma HeldIsBelow(call: Call, f: nat, j: nat)
    requires Ascending(call.files) && call.phase.Locking? && call.phase.n <= j < |call.files| && f in Held(call)
    ensures f < call.files[j]
  {
    var i :| 0 <= i < |Held(call)| && Held(call)[i] == f;
  }

  /** A sound piece whose buffer is real is written without a size error. */
  lemma SoundFits(c: Download.Config, w: World, t: nat)
    requires WorldOk(c, w) && Attainable(c) && t in w.d.conns
    ensures WriteFits(c, w.d.conns[t])
  {
    hide Flat, ClaimsOk, WritersOk, StagesOk, Shaped, Tallied, ValidLayout, ManagerLength, CallsOk, OneHolder;
    assert ConnShape(c, w.d.conns[t]) && RealConn(c, w.d.conns[t]);
    if w.d.conns[t].pc.Write? {
      assert Sound(c, w.d.conns[t].current.value);
    }
  }

  /** A winner is no loser. */
  lemma WinnerNotLost(c: Download.Config, s: State, t: nat)
    requires Invariant(c, s) && t in s.conns && Busy(s.conns[t].pc)
    ensures s.conns[t].current.Some? && s.conns[t].current.value < |s.stage| == NumPieces(c)
    ensures !s.stage[s.conns[t].current.value].Lost? && !s.stage[s.conns[t].current.value].Counted?
  {
    hide Flat, ClaimsOk, StagesOk, Shaped, Tallied, ValidLayout, Progress;
    assert ConnShape(c, s.conns[t]);
    assert WriterOk(c, s.stage, Flat(s.contents), t, s.conns[t]);
  }

  lemma PassedKeepsAll(c: Download.Config, s: State, r: State, t: nat)
    requires Invariant(c, r) && NoneLost(s) && Passed(s, r, t)
    ensures NoneLost(r)
  {
    hide Invariant;
    if InWrite(s, t) {
      WinnerNotLost(c, r, t);
    }
  }

  /** All calls in progress can be finished, one after the other. */
  lemma {:induction false} Drain(c: Download.Config, w: World) returns (acts: seq<Act>)
    requires WorldOk(c, w) && NoneLost(w.d) && Attainable(c)
    ensures var r := RunAll(c, w, acts);
            WorldOk(c, r) && r.calls == map[] && NoneLost(r.d)
    decreases |w.calls|
  {
    hide RunAll, Invariant, Real, Attainable, NoneLost, OneHolder, CallOk, WriteFits, Passed, Clear;
    if w.calls == map[] {
      acts := [];
      RunAllNothing(c, w);
    } else {
      var t0 :| t0 in w.calls;
      var t := FindClear(c, w, t0, 0);
      assert t in w.d.conns;
      SoundFits(c, w, t);
      var first := RunThrough(c, w, t);
      var w1 := RunAll(c, w, first);
      PassedKeepsAll(c, w.d, w1.d, t);
      assert w1.calls.Keys == w.calls.Keys - {t};
      var rest := Drain(c, w1);
      RunAllConcat(c, w, first, rest);
      acts := first + rest;
    }
  }

  // ---------------------------------------------------------------------------
  // With no call in progress a winner stores and counts its piece
  // ---------------------------------------------------------------------------

  /** The piece is counted, nobody else moved, and all mutexes are free again. */
  ghost predicate Stored(c: Download.Config, w: World, r: World, t: nat, i: nat) {
    && WorldOk(c, r) && r.calls == map[]
    && i < |w.d.stage| && r.d.stage == w.d.stage[i := Counted]
    && t in r.d.conns && r.d.conns == w.d.conns[t := r.d.conns[t]] && r.d.conns[t].pc.Idle?
  }

  lemma BeginAlone(c: Download.Config, w: World, t: nat)
    requires WorldOk(c, w) && w.calls == map[] && InWrite(w.d, t)
    ensures w.d.conns[t].current.Some?
    ensures var w1 := Go(c, w, Begin(t));
            w1.d == w.d && t in w1.calls && w1.calls == map[t := w1.calls[t]] && Clear(w1, t)
  {
    hide Flat, ClaimsOk, WritersOk, StagesOk, Shaped, Tallied, ValidLayout, Real, FilesFor, OneHolder;
    assert ConnShape(c, w.d.conns[t]);
  }

  /** The write of a piece, from entering write_piece to leaving it. */
  lemma WriteAlone(c: Download.Config, w: World, t: nat) returns (acts: seq<Act>)
    requires WorldOk(c, w) && w.calls == map[] && InWrite(w.d, t) && WriteFits(c, w.d.conns[t])
    ensures var r := RunAll(c, w, acts);
            WorldOk(c, r) && r.calls == map[] && Passed(w.d, r.d, t)
  {
    hide RunAll, Go, WorldOk, WriteFits, Passed, Clear;
    BeginAlone(c, w, t);
    var w1 := Go(c, w, Begin(t));
    GoKeeps(c, w, Begin(t));
    var rest := RunThrough(c, w1, t);
    acts := [Begin(t)] + rest;
    RunAllUnroll(c, w, Begin(t), rest);
    assert w1.calls - {t} == map[];
  }

  lemma PlainStep(c: Download.Config, w: World, t: nat)
    requires WorldOk(c, w) && t !in w.calls && t in w.d.conns && !w.d.conns[t].pc.Write?
    ensures Go(c, w, Plain(Step(t))) == w.(d := StepConn(c, w.d, t))
    ensures WorldOk(c, w.(d := StepConn(c, w.d, t)))
  {
    InvariantShape(c, w.d, t);
    ApplyIsStep(c, w.d, t);
    NoBuffer(c, w.d, Step(t));
    GoKeeps(c, w, Plain(Step(t)));
    hide WorldOk, Invariant, Apply, StepConn, ShapeOk, ConnShape, RealBuffer;
  }

  /** The two counters. */
  lemma CountAlone(c: Download.Config, w: World, t: nat) returns (acts: seq<Act>)
    requires WorldOk(c, w) && w.calls == map[] && t in w.d.conns
    requires w.d.conns[t].pc.AddBytes? || w.d.conns[t].pc.AddCount?
    ensures w.d.conns[t].current.Some? && Stored(c, w, RunAll(c, w, acts), t, w.d.conns[t].current.value)
    decreases w.d.conns[t].pc.AddBytes?
  {
    hide RunAll, WorldOk, Go, Stored;
    assert Invariant(c, w.d) by { WorldInvariant(c, w); }
    WinnerNotLost(c, w.d, t);
    FitsAnyway(c, w.d.conns[t]);
    WinnerMoves(c, w.d, t);
    PlainStep(c, w, t);
    var i, act := w.d.conns[t].current.value, Plain(Step(t));
    var w1 := Go(c, w, act);
    hide Invariant, WriteFits, StepConn;
    if w.d.conns[t].pc.AddCount? {
      acts := [act];
      RunAllUnroll(c, w, act, []);
      RunAllNothing(c, w1);
      assert [act] + [] == [act];
      StoredNow(c, w, w1, t, i);
    } else {
      BytesThenCount(c, w.d, t);
      var rest := CountAlone(c, w1, t);
      acts := [act] + rest;
      RunAllUnroll(c, w, act, rest);
      StoredLater(c, w, w1, RunAll(c, w1, rest), t, i);
    }
  }

  lemma WorldInvariant(c: Download.Config, w: World)
    requires WorldOk(c, w)
    ensures Invariant(c, w.d)
  {
  }

  lemma FitsAnyway(c: Download.Config, conn: Conn)
    requires !conn.pc.Write?
    ensures WriteFits(c, conn)
  {
  }

  lemma BytesThenCount(c: Download.Config, s: State, t: nat)
    requires ShapeOk(c, s) && t in s.conns && ConnShape(c, s.conns[t]) && s.conns[t].pc.AddBytes?
    ensures t in StepConn(c, s, t).conns && StepConn(c, s, t).conns[t].pc.AddCount?
  {
    hide ValidLayout, Shaped, ManagerLength;
  }

  lemma StoredNow(c: Download.Config, w: World, r: World, t: nat, i: nat)
    requires WorldOk(c, r) && r.calls == map[] && i < |w.d.stage| && r.d.stage == w.d.stage[i := Counted]
    requires t in r.d.conns && r.d.conns == w.d.conns[t := r.d.conns[t]] && r.d.conns[t].pc.Idle?
    ensures Stored(c, w, r, t, i)
  {
    hide WorldOk;
  }

  lemma StoredLater(c: Download.Config, w: World, w1: World, r: World, t: nat, i: nat)
    requires Stored(c, w1, r, t, i) && i < |w.d.stage| == |w1.d.stage| && w1.d.stage == w.d.stage[i := w1.d.stage[i]]
    requires t in w1.d.conns && w1.d.conns == w.d.conns[t := w1.d.conns[t]]
    ensures Stored(c, w, r, t, i)
  {
    hide WorldOk;
    assert w.d.stage[i := w1.d.stage[i]][i := Counted] == w.d.stage[i := Counted];
    assert w.d.conns[t := w1.d.conns[t]][t := r.d.conns[t]] == w.d.conns[t := r.d.conns[t]];
  }

  /** With no call in progress the winner of a piece, left alone, stores and counts it. */
  lemma FinishAlone(c: Download.Config, w: World, t: nat) returns (acts: seq<Act>)
    requires WorldOk(c, w) && w.calls == map[] && t in w.d.conns && Busy(w.d.conns[t].pc) && WriteFits(c, w.d.conns[t])
    ensures w.d.conns[t].current.Some? && Stored(c, w, RunAll(c, w, acts), t, w.d.conns[t].current.value)
  {
    hide RunAll, WorldOk, Stored, WriteFits, Invariant;
    if w.d.conns[t].pc.Write? {
      var first := WriteAlone(c, w, t);
      var w1 := RunAll(c, w, first);
      var rest := CountAlone(c, w1, t);
      RunAllConcat(c, w, first, rest);
      acts := first + rest;
      StoredLater(c, w, w1, RunAll(c, w1, rest), t, w.d.conns[t].current.value);
    } else {
      acts := CountAlone(c, w, t);
    }
  }

  // ---------------------------------------------------------------------------
  // A fresh connection fetches a missing piece
  // ---------------------------------------------------------------------------

  /** Steps of one thread outside the disk writer, with real buffers. */
  ghost predicate PlainRun(c: Download.Config, s: State, t: nat, actions: seq<Action>)
    decreases |actions|
  {
    actions == []
    || (&& actions[0].t == t && RealBuffer(c, s, actions[0])
        && !((actions[0].Step? || actions[0].WriteFails?) && InWrite(s, t))
        && PlainRun(c, Apply(c, s, actions[0]), t, actions[1..]))
  }

  function Plains(actions: seq<Action>): (acts: seq<Act>) {
    if actions == [] then [] else [Plain(actions[0])] + Plains(actions[1..])
  }

  /** Such steps need no mutex. */
  lemma {:induction false} LiftPlain(c: Download.Config, w: World, t: nat, actions: seq<Action>)
    requires t !in w.calls && PlainRun(c, w.d, t, actions)
    ensures RunAll(c, w, Plains(actions)) == w.(d := Run(c, w.d, actions))
    decreases |actions|
  {
    hide Apply, RealBuffer;
    if actions != [] {
      var w1 := w.(d := Apply(c, w.d, actions[0]));
      LiftPlain(c, w1, t, actions[1..]);
      RunAllUnroll(c, w, Plain(actions[0]), Plains(actions[1..]));
      assert Go(c, w, Plain(actions[0])) == w1;
    }
  }

  lemma {:induction false} PlainConcat(c: Download.Config, s: State, t: nat, a: seq<Action>, b: seq<Action>)
    requires PlainRun(c, s, t, a) && PlainRun(c, Run(c, s, a), t, b)
    ensures PlainRun(c, s, t, a + b)
    decreases |a|
  {
    hide Apply, RealBuffer;
    if a == [] {
      assert a + b == b;
    } else {
      PlainConcat(c, Apply(c, s, a[0]), t, a[1..], b);
      assert (a + b)[1..] == a[1..] + b && (a + b)[0] == a[0];
    }
  }

  lemma {:induction false} RunConcat(c: Download.Config, s: State, a: seq<Action>, b: seq<Action>)
    ensures Run(c, s, a + b) == Run(c, Run(c, s, a), b)
    decreases |a|
  {
    hide Apply;
    if a == [] {
      assert a + b == b;
    } else {
      RunConcat(c, Apply(c, s, a[0]), a[1..], b);
      assert (a + b)[1..] == a[1..] + b;
    }
  }

  lemma FreshThread(conns: map<nat, Conn>) returns (t: nat)
    ensures t !in conns
  {
    t := FreshNumber(conns.Keys);
    assert t !in conns.Keys;
  }

  lemma {:induction false} FreshNumber(used: set<nat>) returns (t: nat)
    ensures forall x :: x in used ==> x < t
  {
    if used == {} {
      t := 0;
    } else {
      var x :| x in used;
      var u := FreshNumber(used - {x});
      t := if u > x then u else x + 1;
      forall y | y in used
        ensures y < t
      {
        assert y == x || y in used - {x};
      }
    }
  }

  /** A bitfield with the one piece i. */
  function OnlyBit(n: nat, i: nat): (bits: seq<bool>)
    requires i < n
  {
    seq(n, _ => false)[i := true]
  }

  /** A connection of its own to a peer that has the piece, searching. */
  lemma Introduce(c: Download.Config, s: State, t: nat, i: nat)
    requires Invariant(c, s) && t !in s.conns && i < NumPieces(c)
    ensures var actions := [Connect(t), Receive(t, Announce(i)), Receive(t, Fill)];
            Run(c, s, actions) == Download.Put(s, t, Conn(Scan(0), OnlyBit(NumPieces(c), i), None, false))
    ensures Invariant(c, Download.Put(s, t, Conn(Scan(0), OnlyBit(NumPieces(c), i), None, false)))
  {
    var actions := [Connect(t), Receive(t, Announce(i)), Receive(t, Fill)];
    RunKeeps(c, s, actions);
    StageCount(c, s);
    hide ValidLayout, Shaped, StepConn, WriteFault, Flat, WritersOk, StagesOk, ClaimsOk, Tallied, ConnsOk;
    var s1 := Apply(c, s, actions[0]);
    var s2 := Apply(c, s1, actions[1]);
    var s3 := Apply(c, s2, actions[2]);
    assert s1 == Download.Put(s, t, NewConn(c));
    assert s2 == Download.Put(s1, t, Conn(Idle, OnlyBit(NumPieces(c), i), None, false));
    assert s3 == Download.Put(s2, t, Conn(Scan(0), OnlyBit(NumPieces(c), i), None, false));
    assert s3.conns == s.conns[t := Conn(Scan(0), OnlyBit(NumPieces(c), i), None, false)];
    RunThree(c, s, actions[0], actions[1], actions[2]);
  }

  lemma RunThree(c: Download.Config, s: State, a: Action, b: Action, d: Action)
    ensures Run(c, s, [a, b, d]) == Apply(c, Apply(c, Apply(c, s, a), b), d)
  {
    hide Apply, Run;
    assert [a, b, d] == [a] + ([b] + ([d] + []));
    Unroll(c, s, a, [b] + ([d] + []));
    Unroll(c, Apply(c, s, a), b, [d] + []);
    Unroll(c, Apply(c, Apply(c, s, a), b), d, []);
    RunNothing(c, Apply(c, Apply(c, Apply(c, s, a), b), d));
  }

  lemma PlainThree(c: Download.Config, s: State, t: nat, a: Action, b: Action, d: Action)
    requires a.t == t && b.t == t && d.t == t
    requires PlainRun(c, s, t, [a]) && PlainRun(c, Apply(c, s, a), t, [b]) && PlainRun(c, Apply(c, Apply(c, s, a), b), t, [d])
    ensures PlainRun(c, s, t, [a, b, d])
  {
    hide Apply, RealBuffer;
    assert [a, b, d][1..] == [b, d] && [b, d][1..] == [d];
  }

  lemma PlainOne(c: Download.Config, s: State, t: nat, a: Action)
    requires a.t == t && RealBuffer(c, s, a) && !((a.Step? || a.WriteFails?) && InWrite(s, t))
    ensures PlainRun(c, s, t, [a])
  {
    hide Apply, RealBuffer;
    assert [a][1..] == [];
  }

  lemma IntroduceIsPlain(c: Download.Config, s: State, t: nat, i: nat)
    ensures PlainRun(c, s, t, [Connect(t), Receive(t, Announce(i)), Receive(t, Fill)])
  {
    hide Apply, PlainRun;
    var s1 := Apply(c, s, Connect(t));
    PlainOne(c, s, t, Connect(t));
    PlainOne(c, s1, t, Receive(t, Announce(i)));
    PlainOne(c, Apply(c, s1, Receive(t, Announce(i))), t, Receive(t, Fill));
    PlainThree(c, s, t, Connect(t), Receive(t, Announce(i)), Receive(t, Fill));
  }

  predicate Searching(pc: Pc) {
    pc.Scan? || pc.TryClaim? || pc.Endgame? || pc.Idle?
  }

  lemma SearchingStays(c: Download.Config, s: State, t: nat)
    requires ShapeOk(c, s) && t in s.conns && ConnShape(c, s.conns[t]) && Searching(s.conns[t].pc)
    ensures t in StepConn(c, s, t).conns && Searching(StepConn(c, s, t).conns[t].pc)
  {
    hide ValidLayout, Shaped, Offers;
  }

  lemma {:induction false} SearchIsPlain(c: Download.Config, s: State, t: nat, k: nat)
    requires Invariant(c, s) && t in s.conns && Searching(s.conns[t].pc)
    ensures PlainRun(c, s, t, Steps(t, k))
    decreases k
  {
    hide Invariant, Apply, StepConn, ShapeOk, ConnShape;
    if k > 0 {
      InvariantShape(c, s, t);
      SearchingStays(c, s, t);
      StepKeeps(c, s, t);
      ApplyIsStep(c, s, t);
      SearchIsPlain(c, StepConn(c, s, t), t, k - 1);
      assert Steps(t, k)[1..] == Steps(t, k - 1);
      NoBuffer(c, s, Step(t));
    }
  }

  /** The one wanted piece is picked, claimed or shared. */
  lemma PicksIt(c: Download.Config, s: State, t: nat, i: nat, pick: Pick)
    requires ShapeOk(c, s) && t in s.conns && i < NumPieces(c) && !s.have[i]
    requires s.conns[t].bitfield == OnlyBit(NumPieces(c), i)
    requires GoodPick(s.have, s.claimed, s.conns[t].bitfield, pick)
    ensures !pick.Nothing? && pick.index == i
  {
    hide ValidLayout, Shaped;
    assert Wanted(s.have, s.conns[t].bitfield, i);
  }

  lemma Searches(c: Download.Config, s: State, t: nat, i: nat) returns (k: nat, pick: Pick)
    requires ShapeOk(c, s) && t in s.conns && ConnShape(c, s.conns[t]) && i < NumPieces(c) && !s.have[i]
    requires s.conns[t] == Conn(Scan(0), OnlyBit(NumPieces(c), i), None, false)
    ensures var r := Run(c, s, Steps(t, k));
            && r.stage == s.stage && t in r.conns && r.conns == s.conns[t := r.conns[t]]
            && r.conns[t].pc.Idle? && r.conns[t].current == Some(i)
  {
    hide ValidLayout, Shaped, Run, Steps;
    k, pick := ScanAlone(c, s, t);
    PicksIt(c, s, t, i, pick);
  }

  /** From the hand-over to the start of the write. */
  lemma DeliverAlone(c: Download.Config, s: State, t: nat, i: nat, data: seq<Byte>)
    requires Invariant(c, s) && t in s.conns && s.conns[t].pc.Idle? && s.conns[t].current == Some(i)
    requires i < NumPieces(c) && s.stage[i].Missing? && Genuine(c, i, data)
    ensures var r := Run(c, s, [Receive(t, Deliver(data)), Step(t), Step(t)]);
            && Invariant(c, r) && r.stage == s.stage[i := Writing(t)]
            && t in r.conns && r.conns == s.conns[t := r.conns[t]]
            && r.conns[t].pc == Write(data, 0, 0) && r.conns[t].current == Some(i)
  {
    var actions := [Receive(t, Deliver(data)), Step(t), Step(t)];
    hide ValidLayout, Shaped, Invariant, Fits, Run, Apply, ConnShape, ShapeOk, StepConn;
    RunKeeps(c, s, actions);
    InvariantShape(c, s, t);
    StageAt(c, s, i);
    StageCount(c, s);
    RunThree(c, s, actions[0], actions[1], actions[2]);
    var conn := s.conns[t];
    var s1 := Download.Put(s, t, conn.(pc := Enter(data)));
    var s2 := Download.Put(s, t, conn.(pc := TryHave(data)));
    ReceiveSteps(c, s, t, data);
    ApplyKeeps(c, s, actions[0]);
    InvariantShape(c, s1, t);
    EnterSteps(c, s1, t, data);
    ApplyKeeps(c, s1, Step(t));
    assert s1.conns[t := conn.(pc := TryHave(data))] == s2.conns;
    InvariantShape(c, s2, t);
    TryHaveSteps(c, s2, t, data);
  }

  lemma ReceiveSteps(c: Download.Config, s: State, t: nat, data: seq<Byte>)
    requires ShapeOk(c, s) && t in s.conns && ConnShape(c, s.conns[t])
    requires s.conns[t].pc.Idle? && s.conns[t].current.Some?
    ensures Apply(c, s, Receive(t, Deliver(data))) == Download.Put(s, t, s.conns[t].(pc := Enter(data)))
  {
    hide ValidLayout, Shaped, StepConn, WriteFault;
  }

  lemma EnterSteps(c: Download.Config, s: State, t: nat, data: seq<Byte>)
    requires ShapeOk(c, s) && t in s.conns && ConnShape(c, s.conns[t])
    requires s.conns[t].pc == Enter(data) && !s.have[s.conns[t].current.value]
    requires c.sha(data) == c.hashes[s.conns[t].current.value]
    ensures Apply(c, s, Step(t)) == Download.Put(s, t, s.conns[t].(pc := TryHave(data)))
  {
    hide ValidLayout, Shaped, Handle, WriteFault, WriteStep;
  }

  lemma TryHaveSteps(c: Download.Config, s: State, t: nat, data: seq<Byte>)
    requires ShapeOk(c, s) && t in s.conns && ConnShape(c, s.conns[t])
    requires s.conns[t].pc == TryHave(data) && !s.have[s.conns[t].current.value]
    ensures var i, r := s.conns[t].current.value, Apply(c, s, Step(t));
            && r.stage == s.stage[i := Writing(t)]
            && r.conns == s.conns[t := s.conns[t].(pc := Write(data, 0, 0))]
  {
    hide ValidLayout, Shaped, Handle, WriteFault, WriteStep;
  }

  lemma DeliverIsPlain(c: Download.Config, s: State, t: nat, i: nat, data: seq<Byte>)
    requires Invariant(c, s) && t in s.conns && s.conns[t].pc.Idle? && s.conns[t].current == Some(i)
    requires i < NumPieces(c) && s.stage[i].Missing? && Genuine(c, i, data) && Deliverable(c, i, data)
    ensures PlainRun(c, s, t, [Receive(t, Deliver(data)), Step(t), Step(t)])
  {
    hide ValidLayout, Shaped, Invariant, Fits, Apply, ConnShape, ShapeOk, StepConn, PlainRun, Deliverable;
    InvariantShape(c, s, t);
    StageAt(c, s, i);
    StageCount(c, s);
    var s1 := Download.Put(s, t, s.conns[t].(pc := Pc.Enter(data)));
    PlainOne(c, s, t, Receive(t, Deliver(data)));
    ReceiveSteps(c, s, t, data);
    ApplyKeeps(c, s, Receive(t, Deliver(data)));
    InvariantShape(c, s1, t);
    PlainOne(c, s1, t, Step(t));
    EnterSteps(c, s1, t, data);
    PlainOne(c, Apply(c, s1, Step(t)), t, Step(t));
    PlainThree(c, s, t, Receive(t, Deliver(data)), Step(t), Step(t));
  }

  /** Genuine bytes of a sound piece can be handed over. */
  lemma GenuineIsDeliverable(c: Download.Config, i: nat, data: seq<Byte>)
    requires Genuine(c, i, data) && Sound(c, i) && ValidLayout(c.layout)
    ensures Deliverable(c, i, data)
  {
    hide Contiguous, OffsetAt;
  }

  /** With no call in progress a fresh connection to a peer with genuine bytes of a sound piece, left
      alone, fetches the piece and counts it, whoever holds its claim. */
  lemma FetchAlone(c: Download.Config, w: World, i: nat, data: seq<Byte>) returns (acts: seq<Act>, t: nat)
    requires WorldOk(c, w) && w.calls == map[] && i < NumPieces(c) && |w.d.stage| == NumPieces(c)
    requires w.d.stage[i].Missing? && Genuine(c, i, data) && Deliverable(c, i, data)
    ensures t !in w.d.conns && Stored(c, w, RunAll(c, w, acts), t, i)
  {
    hide WorldOk, Invariant, Run, Fits, ShapeOk, ConnShape, Stored, Steps, RunAll, PlainRun, Deliverable, WriteFits;
    WorldInvariant(c, w);
    var s := w.d;
    t := FreshThread(s.conns);
    var actions := Prepare(c, s, t, i, data);
    var s1 := Run(c, s, actions);
    LiftPlain(c, w, t, actions);
    var w1 := RunAll(c, w, Plains(actions));
    RunAllKeeps(c, w, Plains(actions));
    WriteWillFit(c, w1.d, t, i, data);
    var rest := FinishAlone(c, w1, t);
    RunAllConcat(c, w, Plains(actions), rest);
    acts := Plains(actions) + rest;
    StoredLater(c, w, w1, RunAll(c, w1, rest), t, i);
  }

  lemma WriteWillFit(c: Download.Config, s: State, t: nat, i: nat, data: seq<Byte>)
    requires t in s.conns && s.conns[t].pc == Write(data, 0, 0) && s.conns[t].current == Some(i) && Genuine(c, i, data)
    ensures WriteFits(c, s.conns[t]) && Busy(s.conns[t].pc)
  {
    hide Fits;
  }

  /** From connecting to the start of the write. */
  lemma Prepare(c: Download.Config, s: State, t: nat, i: nat, data: seq<Byte>) returns (actions: seq<Action>)
    requires Invariant(c, s) && t !in s.conns && i < NumPieces(c) && |s.stage| == NumPieces(c)
    requires s.stage[i].Missing? && Genuine(c, i, data) && Deliverable(c, i, data)
    ensures PlainRun(c, s, t, actions)
    ensures var r := Run(c, s, actions);
            && |r.stage| == |s.stage| && r.stage == s.stage[i := r.stage[i]]
            && t in r.conns && r.conns == s.conns[t := r.conns[t]]
            && r.conns[t].pc == Write(data, 0, 0) && r.conns[t].current == Some(i)
  {
    hide Invariant, Run, Fits, ShapeOk, ConnShape, Steps, PlainRun, Deliverable;
    var intro := [Connect(t), Receive(t, Announce(i)), Receive(t, Fill)];
    Introduce(c, s, t, i);
    IntroduceIsPlain(c, s, t, i);
    var s1 := Run(c, s, intro);
    InvariantShape(c, s1, t);
    StageCount(c, s);
    StageAt(c, s, i);
    var k, pick := Searches(c, s1, t, i);
    SearchIsPlain(c, s1, t, k);
    var s2 := Run(c, s1, Steps(t, k));
    RunKeeps(c, s1, Steps(t, k));
    var deliver := [Receive(t, Deliver(data)), Step(t), Step(t)];
    DeliverAlone(c, s2, t, i, data);
    DeliverIsPlain(c, s2, t, i, data);
    actions := intro + (Steps(t, k) + deliver);
    RunConcat(c, s, intro, Steps(t, k) + deliver);
    RunConcat(c, s1, Steps(t, k), deliver);
    PlainConcat(c, s1, t, Steps(t, k), deliver);
    PlainConcat(c, s, t, intro, Steps(t, k) + deliver);
    Threefold(s, s1, s2, Run(c, s2, deliver), t);
  }

  lemma Threefold(s: State, s1: State, s2: State, s3: State, t: nat)
    requires t in s1.conns && s1.conns == s.conns[t := s1.conns[t]]
    requires t in s2.conns && s2.conns == s1.conns[t := s2.conns[t]]
    requires t in s3.conns && s3.conns == s2.conns[t := s3.conns[t]]
    ensures s3.conns == s.conns[t := s3.conns[t]]
  {
  }

  // ---------------------------------------------------------------------------
  // The theorem
  // ---------------------------------------------------------------------------

  lemma StoredCounts(c: Download.Config, w: World, r: World, t: nat, i: nat)
    requires WorldOk(c, w) && NoneLost(w.d) && Stored(c, w, r, t, i) && !w.d.stage[i].Counted?
    ensures WorldOk(c, r) && r.calls == map[] && r.d.count == w.d.count + 1 && NoneLost(r.d)
  {
    hide Flat, ClaimsOk, WritersOk, StagesOk, ConnsOk, ValidLayout, Shaped, Sum, Real, CallsOk, OneHolder;
    SumUpdate(CountWeights(w.d.stage), i, 1);
    assert CountWeights(w.d.stage)[i := 1] == CountWeights(r.d.stage);
  }

  /** Some piece is not counted yet, and its winner, if it has one, is under way. */
  lemma Unfinished(c: Download.Config, s: State) returns (i: nat)
    requires Invariant(c, s) && s.count != NumPieces(c) && NoneLost(s)
    ensures i < NumPieces(c) && |s.stage| == NumPieces(c) && !s.stage[i].Counted?
    ensures s.stage[i].Missing?
            || (exists t :: t in s.conns && s.conns[t].current == Some(i) && Busy(s.conns[t].pc))
  {
    hide Flat, ClaimsOk, WritersOk, ConnsOk, ValidLayout, Shaped, Sum, Fits, OnDisk;
    if forall j :: 0 <= j < NumPieces(c) ==> s.stage[j].Counted? {
      AllCounted(c, s);
    }
    i :| 0 <= i < NumPieces(c) && !s.stage[i].Counted?;
    assert StageOk(c, s.have[i], s.stage[i], s.conns, Flat(s.contents), i);
  }

  /** With no call in progress the pieces can be finished and fetched one after the other. */
  lemma {:induction false} Complete(c: Download.Config, w: World) returns (acts: seq<Act>)
    requires WorldOk(c, w) && w.calls == map[] && NoneLost(w.d) && Attainable(c)
    ensures RunAll(c, w, acts).d.count == NumPieces(c)
    decreases NumPieces(c) - w.d.count
  {
    hide WorldOk, RunAll, Stored, WriteFits, Genuine, Sound, Deliverable, Invariant, NoneLost;
    WorldInvariant(c, w);
    CountBound(c, w.d);
    if w.d.count == NumPieces(c) {
      RunAllNothing(c, w);
      acts := [];
    } else {
      var i := Unfinished(c, w.d);
      var first: seq<Act>, t: nat;
      if w.d.stage[i].Missing? {
        assert HasGenuine(c, i) && Sound(c, i);
        var data :| Genuine(c, i, data);
        LayoutIsValid(c, w.d);
        GenuineIsDeliverable(c, i, data);
        first, t := FetchAlone(c, w, i, data);
      } else {
        t :| t in w.d.conns && w.d.conns[t].current == Some(i) && Busy(w.d.conns[t].pc);
        SoundFits(c, w, t);
        first := FinishAlone(c, w, t);
      }
      var w1 := RunAll(c, w, first);
      StoredCounts(c, w, w1, t, i);
      WorldInvariant(c, w1);
      CountBound(c, w1.d);
      var rest := Complete(c, w1);
      RunAllConcat(c, w, first, rest);
      acts := first + rest;
    }
  }

  lemma LayoutIsValid(c: Download.Config, s: State)
    requires Invariant(c, s)
    ensures ValidLayout(c.layout)
  {
  }

  /** From every reachable state the download can still be completed if and only if no write has thrown
      and every piece has bytes of the right length and hash, the same length for the manager and the
      disk writer, and a block count that does not wrap. */
  lemma CompletableIff(c: Download.Config, s: State, before: seq<Act>)
    requires ValidLayout(c.layout) && Initial(c, s)
    ensures var w := RunAll(c, Start(s), before);
            CanComplete(c, w) <==> NoneLost(w.d) && Attainable(c)
  {
    hide RunAll, NoneLost, Attainable, Initial, ValidLayout, WorldOk;
    StartOk(c, s);
    RunAllKeeps(c, Start(s), before);
    var w := RunAll(c, Start(s), before);
    if NoneLost(w.d) && Attainable(c) {
      var first := Drain(c, w);
      var rest := Complete(c, RunAll(c, w, first));
      RunAllConcat(c, w, first, rest);
    }
    if CanComplete(c, w) {
      var acts :| RunAll(c, w, acts).d.count == NumPieces(c);
      CompletingNeeds(c, w, acts);
    }
  }

  /** At the start that is a question of the torrent and of the bytes alone. */
  lemma StartsCompletable(c: Download.Config, s: State)
    requires ValidLayout(c.layout) && Initial(c, s)
    ensures CanComplete(c, Start(s)) <==> Attainable(c)
  {
    hide Attainable, ValidLayout;
    CompletableIff(c, s, []);
    RunAllNothing(c, Start(s));
  }
}
