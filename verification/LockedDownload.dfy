/** The download protocol with the per-file mutexes of the disk writer and with the buffers that
    connections really hand over. Every run of this machine is a run of module Download with only those
    steps that the mutexes and the buffers allow, so whatever holds of all runs there holds here
    (src/peer_wire/disk_writer.cpp:96-253, src/peer_wire/peer_connection.cpp:290-301, 561-569). */
module LockedDownload {
  import opened Common
  import opened Disk
  import opened Download
  import opened DownloadSafety
  import opened DownloadTheorems
  import BlockTransfer

  // ---------------------------------------------------------------------------
  // The machine
  // ---------------------------------------------------------------------------

  datatype Phase =
    | Locking(n: nat)        // the first n mutexes are held
    | Inside                 // all are held
    | Releasing(n: nat)      // the first n are released again

  /** A call of write_piece or read_piece, with the files of its piece in ascending order. */
  datatype Call = Call(files: seq<nat>, phase: Phase)

  datatype World = World(d: State, calls: map<nat, Call>)

  datatype Act =
    | Plain(a: Action)       // a step outside the disk writer
    | Begin(t: nat)          // write_piece is entered
    | Read(t: nat, i: nat)   // an idle thread serves a block: read_piece is entered
    | Lock(t: nat)           // the next mutex, or the end of locking
    | Work(a: Action)        // a file visited, or an I/O error
    | Return(t: nat)         // read_piece is done
    | Unlock(t: nat)         // the next mutex released, or the end of the call

  function Held(call: Call): (fs: seq<nat>) {
    match call.phase
    case Locking(n) => call.files[..Min(n, |call.files|)]
    case Inside => call.files
    case Releasing(n) => call.files[Min(n, |call.files|)..]
  }

  predicate Free(w: World, f: nat) {
    forall t :: t in w.calls ==> f !in Held(w.calls[t])
  }

  function FilesFor(c: Config, i: nat): (fs: seq<nat>) {
    if InRange(c.layout, i) then FilesOf(c.layout, i) else []
  }

  /** A buffer that a connection can hand over for piece i: of the manager's length, which has blocks. */
  predicate Deliverable(c: Config, i: nat, data: seq<Byte>) {
    |data| == ManagerLength(c, i) && 0 < |data| && !BlockTransfer.Wraps(|data|)
  }

  /** The action hands over no buffer, or one that the block exchange can produce. */
  predicate RealBuffer(c: Config, s: State, a: Action) {
    a.Receive? && a.event.Deliver? && a.t in s.conns && s.conns[a.t].current.Some? ==>
      Deliverable(c, s.conns[a.t].current.value, a.event.data)
  }

  predicate InWrite(s: State, t: nat) {
    t in s.conns && s.conns[t].pc.Write?
  }

  function SetPhase(w: World, t: nat, phase: Phase): (r: World)
    requires t in w.calls
  {
    w.(calls := w.calls[t := w.calls[t].(phase := phase)])
  }

  function Go(c: Config, w: World, act: Act): (r: World) {
    match act
    case Plain(a) =>
      if a.t !in w.calls && RealBuffer(c, w.d, a) && !((a.Step? || a.WriteFails?) && InWrite(w.d, a.t))
      then w.(d := Apply(c, w.d, a)) else w
    case Begin(t) =>
      if t !in w.calls && InWrite(w.d, t) && w.d.conns[t].current.Some?
      then w.(calls := w.calls[t := Call(FilesFor(c, w.d.conns[t].current.value), Locking(0))]) else w
    case Read(t, i) =>
      if t !in w.calls && t in w.d.conns && w.d.conns[t].pc.Idle? && i < |w.d.have| && w.d.have[i]
      then w.(calls := w.calls[t := Call(FilesFor(c, i), Locking(0))]) else w
    case Lock(t) =>
      if t !in w.calls || !w.calls[t].phase.Locking? then w
      else
        var n := w.calls[t].phase.n;
        if n >= |w.calls[t].files| then SetPhase(w, t, Inside)
        else if Free(w, w.calls[t].files[n]) then SetPhase(w, t, Locking(n + 1))
        else w
    case Work(a) =>
      if (a.Step? || a.WriteFails?) && a.t in w.calls && w.calls[a.t].phase.Inside? && InWrite(w.d, a.t)
      then
        var d := Apply(c, w.d, a);
        if InWrite(d, a.t) then w.(d := d) else SetPhase(w, a.t, Releasing(0)).(d := d)
      else w
    case Return(t) =>
      if t in w.calls && w.calls[t].phase.Inside? && !InWrite(w.d, t) then SetPhase(w, t, Releasing(0)) else w
    case Unlock(t) =>
      if t !in w.calls || !w.calls[t].phase.Releasing? then w
      else if w.calls[t].phase.n < |w.calls[t].files| then SetPhase(w, t, Releasing(w.calls[t].phase.n + 1))
      else w.(calls := w.calls - {t})
  }

  function RunAll(c: Config, w: World, acts: seq<Act>): (r: World)
    decreases |acts|
  {
    if acts == [] then w else RunAll(c, Go(c, w, acts[0]), acts[1..])
  }

  function Start(s: State): (w: World) {
    World(s, map[])
  }

  // ---------------------------------------------------------------------------
  // Refinement
  // ---------------------------------------------------------------------------

  /** One step here is one step of the protocol, or none. */
  lemma GoRefines(c: Config, w: World, act: Act)
    ensures Go(c, w, act).d == w.d
            || ((act.Plain? || act.Work?) && Go(c, w, act).d == Apply(c, w.d, act.a) && RealBuffer(c, w.d, act.a))
  {
    hide Apply, Free, Deliverable, FilesFor;
  }

  /** Every run here is a run of the protocol. */
  lemma {:induction false} RunRefines(c: Config, w: World, acts: seq<Act>) returns (actions: seq<Action>)
    ensures RunAll(c, w, acts).d == Run(c, w.d, actions)
    decreases |acts|
  {
    hide Go, Apply;
    if acts == [] {
      actions := [];
      RunNothing(c, w.d);
    } else {
      var rest := RunRefines(c, Go(c, w, acts[0]), acts[1..]);
      GoRefines(c, w, acts[0]);
      if Go(c, w, acts[0]).d == w.d {
        actions := rest;
      } else {
        actions := [acts[0].a] + rest;
        Unroll(c, w.d, acts[0].a, rest);
      }
    }
  }

  /** Exactly the buffers that some block exchange hands over. */
  lemma DeliverableIff(c: Config, i: nat, data: seq<Byte>)
    requires c.nominal < TWO32
    ensures Deliverable(c, i, data) <==> Exchanged(i, ManagerLength(c, i), data)
  {
    hide BlockTransfer.Claimed, BlockTransfer.HonestRun, BlockTransfer.Wraps;
    var length := ManagerLength(c, i);
    assert length < TWO32;
    hide ManagerLength;
    BlockTransfer.CompletableIff(i, length);
    if Deliverable(c, i, data) {
      assert BlockTransfer.CanHandOver(i, length, data);
    }
    if Exchanged(i, length, data) {
      var blocks :| BlockTransfer.Claimed(i, length, blocks).HandedOver? && BlockTransfer.Claimed(i, length, blocks).p.data == data;
      BlockTransfer.AnyMessages(i, length, blocks);
      HasLength(BlockTransfer.Claimed(i, length, blocks).p);
    }
  }

  ghost predicate Exchanged(i: nat, length: nat, data: seq<Byte>) {
    exists blocks :: BlockTransfer.Claimed(i, length, blocks).HandedOver? && BlockTransfer.Claimed(i, length, blocks).p.data == data
  }

  lemma HasLength(p: BlockTransfer.InFlight)
    requires BlockTransfer.Consistent(p)
    ensures |p.data| == p.length
  {
  }

  // ---------------------------------------------------------------------------
  // The invariant
  // ---------------------------------------------------------------------------

  /** The buffer a connection is handing over or writing is a real one. */
  predicate RealConn(c: Config, conn: Conn) {
    (conn.pc.Enter? || conn.pc.TryHave? || conn.pc.Write?) && conn.current.Some? ==>
      Deliverable(c, conn.current.value, conn.pc.data)
  }

  /** The two lengths of the piece agree and its block count does not wrap. */
  predicate Sound(c: Config, i: nat) {
    LengthsAgree(c, i) && !BlockTransfer.Wraps(ManagerLength(c, i))
  }

  predicate IsStored(stage: Stage) {
    stage.Written? || stage.Banked? || stage.Counted?
  }

  /** With real buffers only sound pieces are ever stored. */
  ghost predicate Real(c: Config, s: State) {
    && (forall t :: t in s.conns ==> RealConn(c, s.conns[t]))
    && (forall i :: 0 <= i < |s.stage| && IsStored(s.stage[i]) ==> Sound(c, i))
  }

  predicate CallOk(c: Config, conn: Conn, call: Call) {
    && Ascending(call.files) && (forall f :: f in call.files ==> f < |c.layout.files|)
    && (conn.pc.Write? ==> !call.phase.Releasing?)
    && (!conn.pc.Write? && !call.phase.Releasing? ==> conn.pc.Idle?)
    && (call.phase.Locking? || call.phase.Releasing? ==> call.phase.n <= |call.files|)
  }

  ghost predicate CallsOk(c: Config, w: World) {
    forall t :: t in w.calls ==> t in w.d.conns && CallOk(c, w.d.conns[t], w.calls[t])
  }

  /** No mutex has two holders. */
  ghost predicate OneHolder(w: World) {
    forall t, u, f :: t in w.calls && u in w.calls && f in Held(w.calls[t]) && f in Held(w.calls[u]) ==> t == u
  }

  ghost predicate WorldOk(c: Config, w: World) {
    Invariant(c, w.d) && Real(c, w.d) && CallsOk(c, w) && OneHolder(w)
  }

  // ---------------------------------------------------------------------------
  // Every step keeps it
  // ---------------------------------------------------------------------------

  lemma OthersUnmoved(c: Config, s: State, a: Action, t: nat)
    requires t in s.conns && a.t != t
    ensures t in Apply(c, s, a).conns && Apply(c, s, a).conns[t] == s.conns[t]
  {
    if a.t in s.conns && ShapeOk(c, s) && ConnShape(c, s.conns[a.t]) {
      StepMovesOne(c, s, a.t, t);
      if a.Receive? {
        HandleMovesOne(s, a.t, a.event, t);
      }
      if a.WriteFails? && s.conns[a.t].pc.Write? {
        FaultMovesOne(c, s, a.t, a.torn, t);
      }
    }
    hide ShapeOk, ConnShape, StepConn, Handle, WriteFault;
  }

  lemma StepMovesOne(c: Config, s: State, t: nat, u: nat)
    requires ShapeOk(c, s) && t in s.conns && ConnShape(c, s.conns[t]) && u in s.conns && u != t
    ensures u in StepConn(c, s, t).conns && StepConn(c, s, t).conns[u] == s.conns[u]
  {
    hide ValidLayout, Shaped, VisitFile, Fits, Patch, ManagerLength, Offers, PieceOffset;
  }

  lemma HandleMovesOne(s: State, t: nat, event: Event, u: nat)
    requires t in s.conns && u in s.conns && u != t
    ensures u in Handle(s, t, event).conns && Handle(s, t, event).conns[u] == s.conns[u]
  {
  }

  lemma FaultMovesOne(c: Config, s: State, t: nat, torn: seq<Byte>, u: nat)
    requires ShapeOk(c, s) && t in s.conns && ConnShape(c, s.conns[t]) && u in s.conns && u != t
    requires s.conns[t].pc.Write?
    ensures var conn := s.conns[t];
            var r := WriteFault(c, s, t, conn.current.value, conn.pc.data, conn.pc.k, conn.pc.pos, torn);
            u in r.conns && r.conns[u] == s.conns[u]
  {
    hide ValidLayout, Shaped, VisitFile, Fits, Patch, PieceOffset;
  }

  /** Nobody appears but a thread that connects, and nobody disappears. */
  lemma SameThreads(c: Config, s: State, a: Action, u: nat)
    ensures u in s.conns ==> u in Apply(c, s, a).conns
    ensures u in Apply(c, s, a).conns ==> u in s.conns || u == a.t
  {
    hide ValidLayout, Shaped, VisitFile, Fits, Patch, ManagerLength, Offers, PieceOffset;
  }

  lemma RealThread(c: Config, s: State, a: Action)
    requires Invariant(c, s) && a.t in s.conns && RealConn(c, s.conns[a.t]) && RealBuffer(c, s, a)
    ensures a.t in Apply(c, s, a).conns && RealConn(c, Apply(c, s, a).conns[a.t])
  {
    InvariantShape(c, s, a.t);
    if a.Step? {
      RealStep(c, s, a.t);
    } else if a.WriteFails? && s.conns[a.t].pc.Write? {
      RealFault(c, s, a.t, a.torn);
    } else if a.Receive? && s.conns[a.t].pc.Idle? {
      RealHandle(c, s, a.t, a.event);
    }
    hide Invariant, ShapeOk, ConnShape, StepConn, WriteFault, Handle, RealConn, Deliverable;
  }

  lemma RealStep(c: Config, s: State, t: nat)
    requires ShapeOk(c, s) && t in s.conns && ConnShape(c, s.conns[t]) && RealConn(c, s.conns[t])
    ensures t in StepConn(c, s, t).conns && RealConn(c, StepConn(c, s, t).conns[t])
  {
    hide ValidLayout, Shaped, WriteStep, ManagerLength, Offers, Deliverable;
    if s.conns[t].pc.Write? {
      var Write(data, k, pos) := s.conns[t].pc;
      RealWrite(c, s, t, s.conns[t].current.value, data, k, pos);
    }
  }

  lemma RealWrite(c: Config, s: State, t: nat, i: nat, data: seq<Byte>, k: nat, pos: nat)
    requires ShapeOk(c, s) && t in s.conns && i < NumPieces(c)
    requires s.conns[t].pc == Write(data, k, pos) && RealConn(c, s.conns[t])
    ensures var r := WriteStep(c, s, t, i, data, k, pos); t in r.conns && RealConn(c, r.conns[t])
  {
    hide ValidLayout, Shaped, VisitFile, Fits, Patch, PieceOffset, Deliverable;
  }

  lemma RealFault(c: Config, s: State, t: nat, torn: seq<Byte>)
    requires ShapeOk(c, s) && t in s.conns && ConnShape(c, s.conns[t]) && RealConn(c, s.conns[t]) && s.conns[t].pc.Write?
    ensures var conn := s.conns[t];
            var r := WriteFault(c, s, t, conn.current.value, conn.pc.data, conn.pc.k, conn.pc.pos, torn);
            t in r.conns && RealConn(c, r.conns[t])
  {
    hide ValidLayout, Shaped, VisitFile, Fits, Patch, PieceOffset, Deliverable;
  }

  lemma RealHandle(c: Config, s: State, t: nat, event: Event)
    requires t in s.conns && RealConn(c, s.conns[t]) && RealBuffer(c, s, Receive(t, event)) && s.conns[t].pc.Idle?
    ensures t in Handle(s, t, event).conns && RealConn(c, Handle(s, t, event).conns[t])
  {
    hide Deliverable;
  }

  /** A piece becomes stored only when a fitting buffer has been written out. */
  lemma RealStage(c: Config, s: State, a: Action, i: nat)
    requires Invariant(c, s) && i < |s.stage|
    requires i < |Apply(c, s, a).stage| && IsStored(Apply(c, s, a).stage[i]) && !IsStored(s.stage[i])
    ensures a.t in s.conns && s.conns[a.t].pc.Write? && s.conns[a.t].current == Some(i) && Fits(c, i, s.conns[a.t].pc.data)
  {
    hide Flat, ClaimsOk, StagesOk, Shaped, Tallied, ValidLayout, VisitFile, Fits, Patch, ManagerLength, Offers,
         PieceOffset, Progress;
    if a.t in s.conns {
      assert WriterOk(c, s.stage, Flat(s.contents), a.t, s.conns[a.t]);
    }
  }

  lemma RealKeeps(c: Config, s: State, a: Action)
    requires Invariant(c, s) && Real(c, s) && RealBuffer(c, s, a)
    ensures Real(c, Apply(c, s, a))
  {
    hide Invariant, Apply, RealBuffer, IsStored;
    var r := Apply(c, s, a);
    forall t | t in r.conns
      ensures RealConn(c, r.conns[t])
    {
      SameThreads(c, s, a, t);
      if t != a.t {
        OthersUnmoved(c, s, a, t);
      } else if t in s.conns {
        RealThread(c, s, a);
      } else {
        Newcomer(c, s, a);
      }
    }
    ApplyKeeps(c, s, a);
    StageCount(c, s);
    StageCount(c, r);
    forall i | 0 <= i < |r.stage| && IsStored(r.stage[i])
      ensures Sound(c, i)
    {
      if !IsStored(s.stage[i]) {
        RealStage(c, s, a, i);
        FittingIsSound(c, i, s.conns[a.t].pc.data);
      }
    }
  }

  lemma Newcomer(c: Config, s: State, a: Action)
    requires a.t !in s.conns && a.t in Apply(c, s, a).conns
    ensures RealConn(c, Apply(c, s, a).conns[a.t])
  {
    hide ShapeOk;
  }

  lemma StageCount(c: Config, s: State)
    requires Invariant(c, s)
    ensures |s.stage| == |s.have| == NumPieces(c)
  {
  }

  lemma FittingIsSound(c: Config, i: nat, data: seq<Byte>)
    requires Deliverable(c, i, data) && Fits(c, i, data)
    ensures Sound(c, i)
  {
  }

  /** The calls after a step that changes only the call of t. */
  lemma CallsAfter(c: Config, w: World, r: World, t: nat)
    requires CallsOk(c, w) && r.d == w.d && t in r.calls && r.calls == w.calls[t := r.calls[t]]
    requires t in w.d.conns && CallOk(c, w.d.conns[t], r.calls[t])
    ensures CallsOk(c, r)
  {
    hide CallOk;
  }

  lemma OneHolderAfter(w: World, r: World, t: nat)
    requires OneHolder(w) && t in r.calls && r.calls == w.calls[t := r.calls[t]]
    requires forall f :: f in Held(r.calls[t]) ==> Free(w, f) || (t in w.calls && f in Held(w.calls[t]))
    ensures OneHolder(r)
  {
    hide Held;
    forall u, v, f | u in r.calls && v in r.calls && f in Held(r.calls[u]) && f in Held(r.calls[v])
      ensures u == v
    {
      if u != t && v != t {
        assert f in Held(w.calls[u]) && f in Held(w.calls[v]);
      }
    }
  }

  lemma FilesForOk(c: Config, i: nat)
    ensures Ascending(FilesFor(c, i)) && forall f :: f in FilesFor(c, i) ==> f < |c.layout.files|
  {
    if InRange(c.layout, i) {
      FilesOfSpec(c.layout, i);
    }
    hide FilesOf;
  }

  lemma BeginKeeps(c: Config, w: World, t: nat)
    requires WorldOk(c, w)
    ensures WorldOk(c, Go(c, w, Begin(t)))
  {
    hide Invariant, Real, FilesFor, Free, Ascending;
    var r := Go(c, w, Begin(t));
    if r != w {
      FilesForOk(c, w.d.conns[t].current.value);
      CallsAfter(c, w, r, t);
      OneHolderAfter(w, r, t);
    }
  }

  lemma ReadKeeps(c: Config, w: World, t: nat, i: nat)
    requires WorldOk(c, w)
    ensures WorldOk(c, Go(c, w, Read(t, i)))
  {
    hide Invariant, Real, FilesFor, Free, Ascending;
    var r := Go(c, w, Read(t, i));
    if r != w {
      FilesForOk(c, i);
      CallsAfter(c, w, r, t);
      OneHolderAfter(w, r, t);
    }
  }

  lemma LockKeeps(c: Config, w: World, t: nat)
    requires WorldOk(c, w)
    ensures WorldOk(c, Go(c, w, Lock(t)))
  {
    hide Invariant, Real, Free, Ascending;
    var r := Go(c, w, Lock(t));
    if r != w {
      var call := w.calls[t];
      if call.phase.n < |call.files| {
        assert Held(r.calls[t]) == Held(call) + [call.files[call.phase.n]];
      }
      CallsAfter(c, w, r, t);
      OneHolderAfter(w, r, t);
    }
  }

  lemma ReturnKeeps(c: Config, w: World, t: nat)
    requires WorldOk(c, w)
    ensures WorldOk(c, Go(c, w, Return(t)))
  {
    hide Invariant, Real, Free, Ascending;
    var r := Go(c, w, Return(t));
    if r != w {
      CallsAfter(c, w, r, t);
      OneHolderAfter(w, r, t);
    }
  }

  lemma UnlockKeeps(c: Config, w: World, t: nat)
    requires WorldOk(c, w)
    ensures WorldOk(c, Go(c, w, Unlock(t)))
  {
    hide Invariant, Real, Free, Ascending;
    var r := Go(c, w, Unlock(t));
    if r != w && t in r.calls {
      var n := w.calls[t].phase.n;
      assert w.calls[t].files[n..] == [w.calls[t].files[n]] + w.calls[t].files[n + 1..];
      CallsAfter(c, w, r, t);
      OneHolderAfter(w, r, t);
    }
  }

  /** The calls of others survive a step of the protocol. */
  lemma CallsOfOthers(c: Config, w: World, a: Action, u: nat)
    requires CallsOk(c, w) && u in w.calls && u != a.t
    ensures u in Apply(c, w.d, a).conns && CallOk(c, Apply(c, w.d, a).conns[u], w.calls[u])
  {
    hide Apply, CallOk;
    OthersUnmoved(c, w.d, a, u);
  }

  lemma PlainKeeps(c: Config, w: World, a: Action)
    requires WorldOk(c, w)
    ensures WorldOk(c, Go(c, w, Plain(a)))
  {
    hide Invariant, Real, Apply, CallOk, Held, RealBuffer;
    var r := Go(c, w, Plain(a));
    if r != w {
      ApplyKeeps(c, w.d, a);
      RealKeeps(c, w.d, a);
      forall u | u in r.calls
        ensures u in r.d.conns && CallOk(c, r.d.conns[u], r.calls[u])
      {
        CallsOfOthers(c, w, a, u);
      }
    }
  }

  /** A writer that leaves its loop goes on to count, or is unwound. */
  lemma WorkKeeps(c: Config, w: World, a: Action)
    requires WorldOk(c, w)
    ensures WorldOk(c, Go(c, w, Work(a)))
  {
    hide Invariant, Real, Apply, CallOk, RealBuffer;
    var r := Go(c, w, Work(a));
    if r != w {
      assert RealBuffer(c, w.d, a) by { NoBuffer(c, w.d, a); }
      ApplyKeeps(c, w.d, a);
      RealKeeps(c, w.d, a);
      SameThreads(c, w.d, a, a.t);
      forall u | u in r.calls
        ensures u in r.d.conns && CallOk(c, r.d.conns[u], r.calls[u])
      {
        if u != a.t {
          CallsOfOthers(c, w, a, u);
        } else {
          WriterCall(c, w, a);
        }
      }
      OneHolderAfter(w, r, a.t);
    }
  }

  lemma NoBuffer(c: Config, s: State, a: Action)
    requires !a.Receive?
    ensures RealBuffer(c, s, a)
  {
  }

  lemma WriterCall(c: Config, w: World, a: Action)
    requires a.t in w.calls && w.calls[a.t].phase.Inside? && InWrite(w.d, a.t) && CallsOk(c, w)
    requires a.t in Apply(c, w.d, a).conns
    ensures var d := Apply(c, w.d, a);
            CallOk(c, d.conns[a.t], if InWrite(d, a.t) then w.calls[a.t] else w.calls[a.t].(phase := Releasing(0)))
  {
    hide Apply, Ascending;
    assert CallOk(c, w.d.conns[a.t], w.calls[a.t]);
  }

  /** Every step keeps the invariant, mutual exclusion among them. */
  lemma GoKeeps(c: Config, w: World, act: Act)
    requires WorldOk(c, w)
    ensures WorldOk(c, Go(c, w, act))
  {
    hide WorldOk, Go;
    match act
    case Plain(a) => PlainKeeps(c, w, a);
    case Begin(t) => BeginKeeps(c, w, t);
    case Read(t, i) => ReadKeeps(c, w, t, i);
    case Lock(t) => LockKeeps(c, w, t);
    case Work(a) => WorkKeeps(c, w, a);
    case Return(t) => ReturnKeeps(c, w, t);
    case Unlock(t) => UnlockKeeps(c, w, t);
  }

  lemma {:induction false} RunAllKeeps(c: Config, w: World, acts: seq<Act>)
    requires WorldOk(c, w)
    ensures WorldOk(c, RunAll(c, w, acts))
    decreases |acts|
  {
    hide WorldOk, Go;
    if acts != [] {
      GoKeeps(c, w, acts[0]);
      RunAllKeeps(c, Go(c, w, acts[0]), acts[1..]);
    }
  }

  lemma StartOk(c: Config, s: State)
    requires ValidLayout(c.layout) && Initial(c, s)
    ensures WorldOk(c, Start(s))
  {
    InitialInvariant(c, s);
    hide Invariant, ValidLayout;
  }
}
