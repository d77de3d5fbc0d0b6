/** Any number of piece reads and writes racing for the per-file mutexes
    (src/peer_wire/disk_writer.cpp:96-253). One step per mutex operation and per file. */
module FileLocks {
  import opened Common
  import opened Disk

  datatype Phase =
    | Locking(n: nat)             // the first n locks of the piece are held
    | Working(k: nat, pos: nat)   // the loop is at file k, pos bytes are done
    | Finished(n: nat)            // the loop ran to its end; n locks are released
    | Unwinding(n: nat)           // the loop threw; n locks are released

  /** A call of write_piece (with its data) or of read_piece (with its output buffer). */
  datatype Task = Task(piece: nat, data: Option<seq<Byte>>, out: seq<Byte>, phase: Phase)

  datatype State = State(tasks: seq<Task>, owner: seq<Option<nat>>, contents: seq<seq<Byte>>)

  /** An I/O error leaves arbitrary bytes in the chunk that was being written. */
  datatype Action = Step(t: nat) | Throw(t: nat, torn: seq<Byte>)

  predicate GoodTask(l: Layout, task: Task) {
    InRange(l, task.piece)
  }

  /** The buffer of a write has the length of its piece. */
  predicate Sized(l: Layout, task: Task)
    requires GoodTask(l, task)
  {
    task.data.Some? ==> |task.data.value| == PieceLength(l, task.piece)
  }

  predicate Initial(l: Layout, s: State) {
    && Shaped(l, s.contents)
    && |s.owner| == |l.files|
    && (forall f :: 0 <= f < |s.owner| ==> s.owner[f].None?)
    && (forall t :: 0 <= t < |s.tasks| ==>
          GoodTask(l, s.tasks[t]) && s.tasks[t].phase == Locking(0) && s.tasks[t].out == [])
  }

  predicate Done(l: Layout, task: Task)
    requires InRange(l, task.piece)
  {
    && (task.phase.Finished? || task.phase.Unwinding?)
    && task.phase.n >= |FilesOf(l, task.piece)|
  }

  // ---------------------------------------------------------------------------
  // Steps
  // ---------------------------------------------------------------------------

  function WithPhase(s: State, t: nat, phase: Phase): (r: State)
    requires t < |s.tasks|
  {
    s.(tasks := s.tasks[t := s.tasks[t].(phase := phase)])
  }

  function Acquire(l: Layout, s: State, t: nat, n: nat): (r: State)
    requires t < |s.tasks| && InRange(l, s.tasks[t].piece) && |s.owner| == |l.files|
  {
    var ks := FilesOf(l, s.tasks[t].piece);
    if n >= |ks| then WithPhase(s, t, if Sized(l, s.tasks[t]) then Working(0, 0) else Unwinding(0))
    else if ks[n] < |s.owner| && s.owner[ks[n]].None? then
      WithPhase(s, t, Locking(n + 1)).(owner := s.owner[ks[n] := Some(t)])
    else s  // blocked
  }

  function Release(l: Layout, s: State, t: nat, n: nat): (r: State)
    requires t < |s.tasks| && InRange(l, s.tasks[t].piece) && |s.owner| == |l.files|
  {
    var ks := FilesOf(l, s.tasks[t].piece);
    if n < |ks| && ks[n] < |s.owner| then
      var phase := if s.tasks[t].phase.Finished? then Finished(n + 1) else Unwinding(n + 1);
      WithPhase(s, t, phase).(owner := s.owner[ks[n] := None])
    else s
  }

  function Work(l: Layout, s: State, t: nat, k: nat, pos: nat): (r: State)
    requires t < |s.tasks| && GoodTask(l, s.tasks[t]) && Shaped(l, s.contents)
  {
    var task := s.tasks[t];
    var len := PieceLength(l, task.piece);
    if k >= |l.files| || pos >= len then WithPhase(s, t, Finished(0))
    else match VisitFile(l.files[k], PieceOffset(l, task.piece) + pos, len - pos)
      case Skip => WithPhase(s, t, Working(k + 1, pos))
      case Stop => WithPhase(s, t, Finished(0))
      case Touch(start, chunk) =>
        if pos + chunk > len || start + chunk > |s.contents[k]| || !Sized(l, task) then s
        else if task.data.Some? then
          WithPhase(s, t, Working(k + 1, pos + chunk)).(
            contents := s.contents[k := Patch(s.contents[k], start, task.data.value[pos..pos + chunk])])
        else
          s.(tasks := s.tasks[t := task.(phase := Working(k + 1, pos + chunk),
                                         out := task.out + s.contents[k][start..start + chunk])])
  }

  /** The loop throws: a writer may have damaged the chunk it was at. */
  function Fault(l: Layout, s: State, t: nat, k: nat, pos: nat, torn: seq<Byte>): (r: State)
    requires t < |s.tasks| && GoodTask(l, s.tasks[t]) && Shaped(l, s.contents)
  {
    var task := s.tasks[t];
    var len := PieceLength(l, task.piece);
    var contents :=
      if task.data.None? || k >= |l.files| || pos >= len then s.contents
      else match VisitFile(l.files[k], PieceOffset(l, task.piece) + pos, len - pos)
        case Touch(start, chunk) =>
          if |torn| == chunk && start + chunk <= |s.contents[k]|
          then s.contents[k := Patch(s.contents[k], start, torn)] else s.contents
        case _ => s.contents;
    WithPhase(s, t, Unwinding(0)).(contents := contents)
  }

  predicate WellFormed(l: Layout, s: State) {
    && ValidLayout(l) && Shaped(l, s.contents) && |s.owner| == |l.files|
    && forall t :: 0 <= t < |s.tasks| ==> GoodTask(l, s.tasks[t])
  }

  function Apply(l: Layout, s: State, a: Action): (r: State) {
    if !WellFormed(l, s) || a.t >= |s.tasks| then s
    else match a
      case Throw(t, torn) =>
        if s.tasks[t].phase.Working? then Fault(l, s, t, s.tasks[t].phase.k, s.tasks[t].phase.pos, torn) else s
      case Step(t) =>
        match s.tasks[t].phase
        case Locking(n) => Acquire(l, s, t, n)
        case Working(k, pos) => Work(l, s, t, k, pos)
        case Finished(n) => Release(l, s, t, n)
        case Unwinding(n) => Release(l, s, t, n)
  }

  // ---------------------------------------------------------------------------
  // The invariant
  // ---------------------------------------------------------------------------

  /** The files whose mutex a task holds. */
  function Held(l: Layout, task: Task): (fs: seq<nat>)
    requires InRange(l, task.piece)
  {
    var ks := FilesOf(l, task.piece);
    match task.phase
    case Locking(n) => ks[..Min(n, |ks|)]
    case Working(_, _) => ks
    case Finished(n) => ks[Min(n, |ks|)..]
    case Unwinding(n) => ks[Min(n, |ks|)..]
  }

  ghost predicate Owns(s: State, t: nat, f: nat) {
    f < |s.owner| && s.owner[f] == Some(t)
  }

  ghost predicate OwnersMatch(l: Layout, s: State)
    requires WellFormed(l, s)
  {
    && (forall f :: 0 <= f < |s.owner| && s.owner[f].Some? ==> s.owner[f].value < |s.tasks|)
    && forall t, f :: 0 <= t < |s.tasks| && 0 <= f < |s.owner| ==>
         (Owns(s, t, f) <==> f in Held(l, s.tasks[t]))
  }

  /** What a task has done so far is what the flat disk shows right now. */
  ghost predicate UpToDate(l: Layout, flat: seq<Byte>, task: Task)
    requires ValidLayout(l) && GoodTask(l, task) && |flat| == l.total
  {
    var base, len := PieceOffset(l, task.piece), PieceLength(l, task.piece);
    match task.phase
    case Locking(_) => task.out == []
    case Working(k, pos) =>
      && Sized(l, task) && Reached(l, k, base, pos, len)
      && (task.data.None? ==> task.out == flat[base..base + pos])
      && (task.data.Some? ==> task.data.value[..pos] == flat[base..base + pos])
    case Finished(n) => n == 0 ==> PieceBytes(l, flat, task.piece) == Outcome(task)
    case Unwinding(_) => true
  }

  function Outcome(task: Task): (bytes: seq<Byte>) {
    if task.data.Some? then task.data.value else task.out
  }

  ghost predicate Invariant(l: Layout, s: State) {
    && WellFormed(l, s)
    && OwnersMatch(l, s)
    && |Flat(s.contents)| == l.total
    && forall t :: 0 <= t < |s.tasks| ==> UpToDate(l, Flat(s.contents), s.tasks[t])
  }

  lemma InitialInvariant(l: Layout, s: State)
    requires ValidLayout(l) && Initial(l, s)
    ensures Invariant(l, s)
  {
    FlatTotal(l, s.contents);
  }

  /** One task moved, everyone else's locks are as they were. */
  lemma OwnersAfter(l: Layout, s: State, r: State, t: nat)
    requires WellFormed(l, s) && OwnersMatch(l, s) && WellFormed(l, r)
    requires t < |s.tasks| == |r.tasks|
    requires forall u :: 0 <= u < |s.tasks| && u != t ==> r.tasks[u] == s.tasks[u]
    requires forall f :: 0 <= f < |r.owner| ==> (Owns(r, t, f) <==> f in Held(l, r.tasks[t]))
    requires forall f :: 0 <= f < |r.owner| ==>
               (|| r.owner[f] == s.owner[f]
                || (r.owner[f] == Some(t) && s.owner[f] == None)
                || (r.owner[f] == None && s.owner[f] == Some(t)))
    ensures OwnersMatch(l, r)
  {
    hide FilesOf, InRange, ValidLayout, Shaped, Held;
    forall u, f | 0 <= u < |r.tasks| && 0 <= f < |r.owner|
      ensures Owns(r, u, f) <==> f in Held(l, r.tasks[u])
    {
      assert Owns(s, u, f) <==> f in Held(l, s.tasks[u]);
      assert u != t ==> (Owns(r, u, f) <==> Owns(s, u, f));
    }
  }

  lemma OthersUpToDate(l: Layout, s: State, r: State, t: nat)
    requires Invariant(l, s) && WellFormed(l, r)
    requires t < |s.tasks| == |r.tasks| && r.contents == s.contents
    requires forall u :: 0 <= u < |s.tasks| && u != t ==> r.tasks[u] == s.tasks[u]
    requires UpToDate(l, Flat(s.contents), r.tasks[t])
    ensures forall u :: 0 <= u < |r.tasks| ==> UpToDate(l, Flat(r.contents), r.tasks[u])
  {
    hide Flat, FilesOf, InRange, ValidLayout, Shaped, UpToDate;
  }

  lemma AcquireKeeps(l: Layout, s: State, t: nat, n: nat)
    requires Invariant(l, s) && t < |s.tasks| && s.tasks[t].phase == Locking(n) && n < |FilesOf(l, s.tasks[t].piece)|
    ensures Invariant(l, Acquire(l, s, t, n))
  {
    hide Flat, FilesOf, PieceOffset, PieceLength, InRange, ValidLayout, Shaped, Reached;
    var r := Acquire(l, s, t, n);
    if r != s {
      assert UpToDate(l, Flat(s.contents), r.tasks[t]);
      FilesOfSpec(l, s.tasks[t].piece);
      var ks := FilesOf(l, s.tasks[t].piece);
      assert Held(l, r.tasks[t]) == ks[..n + 1] == Held(l, s.tasks[t]) + [ks[n]];
      forall f | 0 <= f < |r.owner|
        ensures Owns(r, t, f) <==> f in Held(l, r.tasks[t])
      {
        assert Owns(s, t, f) <==> f in Held(l, s.tasks[t]);
      }
      OwnersAfter(l, s, r, t);
      OthersUpToDate(l, s, r, t);
    }
  }

  lemma ReleaseKeeps(l: Layout, s: State, t: nat, n: nat)
    requires Invariant(l, s) && t < |s.tasks|
    requires s.tasks[t].phase == Finished(n) || s.tasks[t].phase == Unwinding(n)
    ensures Invariant(l, Release(l, s, t, n))
  {
    hide Flat, FilesOf, PieceOffset, PieceLength, InRange, ValidLayout, Shaped, Reached;
    var r := Release(l, s, t, n);
    if r != s {
      FilesOfSpec(l, s.tasks[t].piece);
      var ks := FilesOf(l, s.tasks[t].piece);
      assert Held(l, s.tasks[t]) == [ks[n]] + ks[n + 1..];
      forall f | 0 <= f < |r.owner|
        ensures Owns(r, t, f) <==> f in Held(l, r.tasks[t])
      {
        assert Owns(s, t, f) <==> f in Held(l, s.tasks[t]);
      }
      assert Owns(s, t, ks[n]);
      OwnersAfter(l, s, r, t);
      OthersUpToDate(l, s, r, t);
    }
  }

  /** A task that keeps its locks may move on as long as it stays up to date. */
  lemma MoveKeeps(l: Layout, s: State, t: nat, task: Task)
    requires Invariant(l, s) && t < |s.tasks| && GoodTask(l, task)
    requires forall f :: f in Held(l, task) <==> f in Held(l, s.tasks[t])
    requires UpToDate(l, Flat(s.contents), task)
    ensures Invariant(l, s.(tasks := s.tasks[t := task]))
  {
    hide Flat, FilesOf, PieceOffset, PieceLength, InRange, ValidLayout, Shaped, Reached, Held, UpToDate;
    var r := s.(tasks := s.tasks[t := task]);
    forall f | 0 <= f < |r.owner|
      ensures Owns(r, t, f) <==> f in Held(l, r.tasks[t])
    {
      assert Owns(s, t, f) <==> f in Held(l, s.tasks[t]);
    }
    OwnersAfter(l, s, r, t);
    OthersUpToDate(l, s, r, t);
  }

  lemma StartWorkKeeps(l: Layout, s: State, t: nat, n: nat)
    requires Invariant(l, s) && t < |s.tasks| && s.tasks[t].phase == Locking(n)
    requires n >= |FilesOf(l, s.tasks[t].piece)| && Sized(l, s.tasks[t])
    ensures Invariant(l, WithPhase(s, t, Working(0, 0)))
  {
    hide Flat, FilesOf, PieceOffset, PieceLength, InRange, ValidLayout, Shaped;
    var ks := FilesOf(l, s.tasks[t].piece);
    assert ks[..|ks|] == ks;
    PieceFits(l, s.tasks[t].piece);
    MoveKeeps(l, s, t, s.tasks[t].(phase := Working(0, 0)));
  }

  /** A buffer of the wrong size is refused while all locks are held. */
  lemma RefuseKeeps(l: Layout, s: State, t: nat, n: nat)
    requires Invariant(l, s) && t < |s.tasks| && s.tasks[t].phase == Locking(n)
    requires n >= |FilesOf(l, s.tasks[t].piece)|
    ensures Invariant(l, WithPhase(s, t, Unwinding(0)))
  {
    hide Flat, FilesOf, PieceOffset, PieceLength, InRange, ValidLayout, Shaped, Reached;
    var ks := FilesOf(l, s.tasks[t].piece);
    assert ks[..|ks|] == ks && ks[0..] == ks;
    MoveKeeps(l, s, t, s.tasks[t].(phase := Unwinding(0)));
  }

  lemma ThrowKeeps(l: Layout, s: State, t: nat)
    requires Invariant(l, s) && t < |s.tasks| && s.tasks[t].phase.Working?
    ensures Invariant(l, WithPhase(s, t, Unwinding(0)))
  {
    hide Flat, FilesOf, PieceOffset, PieceLength, InRange, ValidLayout, Shaped, Reached;
    var ks := FilesOf(l, s.tasks[t].piece);
    assert ks[0..] == ks;
    MoveKeeps(l, s, t, s.tasks[t].(phase := Unwinding(0)));
  }

  /** Changing one file cannot disturb a task that does not hold that file. */
  lemma ChunkMissesOthers(l: Layout, flat: seq<Byte>, after: seq<Byte>, task: Task, k: nat)
    requires ValidLayout(l) && GoodTask(l, task) && |flat| == |after| == l.total
    requires k < |l.files| && k !in Held(l, task)
    requires forall p :: 0 <= p < l.total && !(l.files[k].offset <= p < l.files[k].offset + l.files[k].length)
               ==> after[p] == flat[p]
    requires UpToDate(l, flat, task)
    ensures UpToDate(l, after, task)
  {
    hide FilesOf, ValidLayout, OffsetAt, PieceOffset, PieceLength, InRange;
    FilesOfSpec(l, task.piece);
    PieceFits(l, task.piece);
    if task.phase.Working? || task.phase == Finished(0) {
      var base, len := PieceOffset(l, task.piece), PieceLength(l, task.piece);
      assert k !in FilesOf(l, task.piece) by {
        assert FilesOf(l, task.piece)[0..] == FilesOf(l, task.piece);
      }
      assert !OverlapsRange(l.files[k], base, base + len);
      assert forall p :: base <= p < base + len ==> after[p] == flat[p];
    }
  }

  /** Writing any bytes of a chunk changes one file only; the right bytes keep the writer up to date. */
  lemma ChunkChanges(l: Layout, s: State, t: nat, k: nat, pos: nat, start: nat, chunk: nat, bytes: seq<Byte>)
    requires Invariant(l, s) && t < |s.tasks| && s.tasks[t].phase == Working(k, pos) && s.tasks[t].data.Some?
    requires k < |l.files| && pos < PieceLength(l, s.tasks[t].piece) && |bytes| == chunk
    requires VisitFile(l.files[k], PieceOffset(l, s.tasks[t].piece) + pos, PieceLength(l, s.tasks[t].piece) - pos)
             == Touch(start, chunk)
    ensures start + chunk <= |s.contents[k]| && pos + chunk <= |s.tasks[t].data.value|
    ensures var contents := s.contents[k := Patch(s.contents[k], start, bytes)];
            && Shaped(l, contents)
            && |Flat(contents)| == l.total
            && (bytes == s.tasks[t].data.value[pos..pos + chunk] ==>
                  UpToDate(l, Flat(contents), s.tasks[t].(phase := Working(k + 1, pos + chunk))))
            && forall p :: 0 <= p < l.total && !(l.files[k].offset <= p < l.files[k].offset + l.files[k].length)
                 ==> Flat(contents)[p] == Flat(s.contents)[p]
  {
    hide FilesOf, Flat, PieceOffset, PieceLength, InRange, OffsetAt;
    var task := s.tasks[t];
    var base, len := PieceOffset(l, task.piece), PieceLength(l, task.piece);
    PieceFits(l, task.piece);
    VisitAdvances(l, k, base, pos, len);
    FilePatch(l, s.contents, k, start, bytes);
    hide Patch, VisitFile, Contiguous;
    PatchBehind(Flat(s.contents), base, pos, bytes);
    PatchElsewhere(Flat(s.contents), base + pos, bytes);
    assert task.data.value[..pos + chunk] == task.data.value[..pos] + task.data.value[pos..pos + chunk];
  }

  /** Nobody else can notice a change in a file that the task holds. */
  lemma OthersMissIt(l: Layout, s: State, r: State, t: nat, k: nat)
    requires Invariant(l, s) && WellFormed(l, r) && |Flat(r.contents)| == l.total
    requires t < |s.tasks| == |r.tasks| && k < |l.files| && k in Held(l, s.tasks[t])
    requires forall u :: 0 <= u < |s.tasks| && u != t ==> r.tasks[u] == s.tasks[u]
    requires forall p :: 0 <= p < l.total && !(l.files[k].offset <= p < l.files[k].offset + l.files[k].length)
               ==> Flat(r.contents)[p] == Flat(s.contents)[p]
    requires UpToDate(l, Flat(r.contents), r.tasks[t])
    ensures forall u :: 0 <= u < |r.tasks| ==> UpToDate(l, Flat(r.contents), r.tasks[u])
  {
    hide FilesOf, Flat, PieceOffset, PieceLength, InRange, ValidLayout, UpToDate, Shaped, Held;
    assert Owns(s, t, k);
    forall u | 0 <= u < |r.tasks|
      ensures UpToDate(l, Flat(r.contents), r.tasks[u])
    {
      if u != t {
        assert Owns(s, u, k) <==> k in Held(l, s.tasks[u]);
        ChunkMissesOthers(l, Flat(s.contents), Flat(r.contents), s.tasks[u], k);
      }
    }
  }

  lemma WriterKeeps(l: Layout, s: State, t: nat, k: nat, pos: nat)
    requires Invariant(l, s) && t < |s.tasks| && s.tasks[t].phase == Working(k, pos) && s.tasks[t].data.Some?
    requires k < |l.files| && pos < PieceLength(l, s.tasks[t].piece)
    requires VisitFile(l.files[k], PieceOffset(l, s.tasks[t].piece) + pos, PieceLength(l, s.tasks[t].piece) - pos).Touch?
    ensures Invariant(l, Work(l, s, t, k, pos))
  {
    hide FilesOf, Flat, PieceOffset, PieceLength, InRange, ValidLayout, UpToDate, Shaped, Patch, VisitFile, Reached;
    var Touch(start, chunk) := VisitFile(l.files[k], PieceOffset(l, s.tasks[t].piece) + pos,
                                         PieceLength(l, s.tasks[t].piece) - pos);
    ChunkFits(l, s, t, k, pos, start, chunk);
    ChunkChanges(l, s, t, k, pos, start, chunk, s.tasks[t].data.value[pos..pos + chunk]);
    var r := Work(l, s, t, k, pos);
    TouchesOnlyItsFiles(l, s.tasks[t].piece, k, pos);
    assert k in Held(l, s.tasks[t]);
    forall f | 0 <= f < |r.owner|
      ensures Owns(r, t, f) <==> f in Held(l, r.tasks[t])
    {
      assert Owns(s, t, f) <==> f in Held(l, s.tasks[t]);
    }
    OwnersAfter(l, s, r, t);
    OthersMissIt(l, s, r, t, k);
  }

  lemma ChunkFits(l: Layout, s: State, t: nat, k: nat, pos: nat, start: nat, chunk: nat)
    requires Invariant(l, s) && t < |s.tasks| && s.tasks[t].phase == Working(k, pos) && s.tasks[t].data.Some?
    requires k < |l.files| && pos < PieceLength(l, s.tasks[t].piece)
    requires VisitFile(l.files[k], PieceOffset(l, s.tasks[t].piece) + pos, PieceLength(l, s.tasks[t].piece) - pos)
             == Touch(start, chunk)
    ensures pos + chunk <= |s.tasks[t].data.value| == PieceLength(l, s.tasks[t].piece) && Sized(l, s.tasks[t])
  {
    hide FilesOf, Flat, PieceOffset, PieceLength, InRange, OffsetAt;
    var task := s.tasks[t];
    PieceFits(l, task.piece);
    VisitAdvances(l, k, PieceOffset(l, task.piece), pos, PieceLength(l, task.piece));
  }

  /** A writer that damages its chunk and throws disturbs nobody else. */
  lemma TornKeeps(l: Layout, s: State, t: nat, k: nat, pos: nat, start: nat, chunk: nat, torn: seq<Byte>)
    requires Invariant(l, s) && t < |s.tasks| && s.tasks[t].phase == Working(k, pos) && s.tasks[t].data.Some?
    requires k < |l.files| && pos < PieceLength(l, s.tasks[t].piece) && |torn| == chunk
    requires VisitFile(l.files[k], PieceOffset(l, s.tasks[t].piece) + pos, PieceLength(l, s.tasks[t].piece) - pos)
             == Touch(start, chunk)
    ensures Invariant(l, Fault(l, s, t, k, pos, torn))
  {
    hide FilesOf, Flat, PieceOffset, PieceLength, InRange, ValidLayout, UpToDate, Shaped, Patch, VisitFile, Reached;
    ChunkChanges(l, s, t, k, pos, start, chunk, torn);
    var r := Fault(l, s, t, k, pos, torn);
    TouchesOnlyItsFiles(l, s.tasks[t].piece, k, pos);
    var ks := FilesOf(l, s.tasks[t].piece);
    assert ks[0..] == ks;
    forall f | 0 <= f < |r.owner|
      ensures Owns(r, t, f) <==> f in Held(l, r.tasks[t])
    {
      assert Owns(s, t, f) <==> f in Held(l, s.tasks[t]);
    }
    OwnersAfter(l, s, r, t);
    UnwindingIsFree(l, Flat(r.contents), r.tasks[t]);
    OthersMissIt(l, s, r, t, k);
  }

  lemma UnwindingIsFree(l: Layout, flat: seq<Byte>, task: Task)
    requires ValidLayout(l) && GoodTask(l, task) && |flat| == l.total && task.phase.Unwinding?
    ensures UpToDate(l, flat, task)
  {
  }

  lemma FaultKeeps(l: Layout, s: State, t: nat, k: nat, pos: nat, torn: seq<Byte>)
    requires Invariant(l, s) && t < |s.tasks| && s.tasks[t].phase == Working(k, pos)
    ensures Invariant(l, Fault(l, s, t, k, pos, torn))
  {
    hide FilesOf, Flat, PieceOffset, PieceLength, InRange, ValidLayout, UpToDate, Shaped, VisitFile, Reached, OwnersMatch;
    ThrowKeeps(l, s, t);
    assert WithPhase(s, t, Unwinding(0)).(contents := s.contents) == WithPhase(s, t, Unwinding(0));
    if s.tasks[t].data.Some? && k < |l.files| && pos < PieceLength(l, s.tasks[t].piece) {
      match VisitFile(l.files[k], PieceOffset(l, s.tasks[t].piece) + pos, PieceLength(l, s.tasks[t].piece) - pos)
      case Touch(start, chunk) =>
        if |torn| == chunk {
          TornKeeps(l, s, t, k, pos, start, chunk, torn);
        }
      case _ =>
    }
  }

  lemma ReaderKeeps(l: Layout, s: State, t: nat, k: nat, pos: nat)
    requires Invariant(l, s) && t < |s.tasks| && s.tasks[t].phase == Working(k, pos) && s.tasks[t].data.None?
    requires k < |l.files| && pos < PieceLength(l, s.tasks[t].piece)
    requires VisitFile(l.files[k], PieceOffset(l, s.tasks[t].piece) + pos, PieceLength(l, s.tasks[t].piece) - pos).Touch?
    ensures Invariant(l, Work(l, s, t, k, pos))
  {
    hide FilesOf, Flat, PieceOffset, PieceLength, InRange, OffsetAt;
    var task := s.tasks[t];
    var base, len := PieceOffset(l, task.piece), PieceLength(l, task.piece);
    PieceFits(l, task.piece);
    VisitAdvances(l, k, base, pos, len);
    var Touch(start, chunk) := VisitFile(l.files[k], base + pos, len - pos);
    ReadVisit(l, s.contents, k, base, task.out, start, chunk);
    hide VisitFile, Contiguous, Shaped;
    MoveKeeps(l, s, t, task.(phase := Working(k + 1, pos + chunk),
                             out := task.out + s.contents[k][start..start + chunk]));
  }

  lemma SkipKeeps(l: Layout, s: State, t: nat, k: nat, pos: nat)
    requires Invariant(l, s) && t < |s.tasks| && s.tasks[t].phase == Working(k, pos)
    requires k >= |l.files| || pos >= PieceLength(l, s.tasks[t].piece)
             || !VisitFile(l.files[k], PieceOffset(l, s.tasks[t].piece) + pos, PieceLength(l, s.tasks[t].piece) - pos).Touch?
    ensures Invariant(l, Work(l, s, t, k, pos))
  {
    hide FilesOf, Flat, PieceOffset, PieceLength, InRange, OffsetAt;
    var task := s.tasks[t];
    var base, len := PieceOffset(l, task.piece), PieceLength(l, task.piece);
    PieceFits(l, task.piece);
    var ks := FilesOf(l, task.piece);
    assert ks[0..] == ks;
    if k >= |l.files| || pos >= len {
      LoopEnd(l, k, base, pos, len);
      assert task.data.Some? ==> task.data.value[..pos] == task.data.value;
      MoveKeeps(l, s, t, task.(phase := Finished(0)));
    } else {
      VisitAdvances(l, k, base, pos, len);
      MoveKeeps(l, s, t, task.(phase := Working(k + 1, pos)));
    }
  }

  lemma ApplyKeeps(l: Layout, s: State, a: Action)
    requires Invariant(l, s)
    ensures Invariant(l, Apply(l, s, a))
  {
    hide FilesOf, Flat, PieceOffset, PieceLength, InRange, ValidLayout, UpToDate, Shaped, Work, Acquire, Release,
         OwnersMatch, Fault;
    if a.t < |s.tasks| {
      match s.tasks[a.t].phase
      case Locking(n) =>
        if a.Step? {
          LockingKeeps(l, s, a.t, n);
        }
      case Working(k, pos) =>
        WorkKeeps(l, s, a.t, k, pos);
        if a.Throw? {
          FaultKeeps(l, s, a.t, k, pos, a.torn);
        }
      case Finished(n) => ReleaseKeeps(l, s, a.t, n);
      case Unwinding(n) => ReleaseKeeps(l, s, a.t, n);
    }
  }

  lemma LockingKeeps(l: Layout, s: State, t: nat, n: nat)
    requires Invariant(l, s) && t < |s.tasks| && s.tasks[t].phase == Locking(n)
    ensures Invariant(l, Acquire(l, s, t, n))
  {
    hide FilesOf, Flat, PieceOffset, PieceLength, InRange, ValidLayout, UpToDate, Shaped, OwnersMatch;
    if n < |FilesOf(l, s.tasks[t].piece)| {
      AcquireKeeps(l, s, t, n);
    } else if Sized(l, s.tasks[t]) {
      StartWorkKeeps(l, s, t, n);
    } else {
      RefuseKeeps(l, s, t, n);
    }
  }

  lemma WorkKeeps(l: Layout, s: State, t: nat, k: nat, pos: nat)
    requires Invariant(l, s) && t < |s.tasks| && s.tasks[t].phase == Working(k, pos)
    ensures Invariant(l, Work(l, s, t, k, pos))
  {
    hide FilesOf, Flat, PieceOffset, PieceLength, InRange, ValidLayout, UpToDate, Shaped, OwnersMatch, Work, VisitFile;
    if k >= |l.files| || pos >= PieceLength(l, s.tasks[t].piece)
       || !VisitFile(l.files[k], PieceOffset(l, s.tasks[t].piece) + pos, PieceLength(l, s.tasks[t].piece) - pos).Touch? {
      SkipKeeps(l, s, t, k, pos);
    } else if s.tasks[t].data.Some? {
      WriterKeeps(l, s, t, k, pos);
    } else {
      ReaderKeeps(l, s, t, k, pos);
    }
  }

  // ---------------------------------------------------------------------------
  // Whole runs
  // ---------------------------------------------------------------------------

  function Run(l: Layout, s: State, actions: seq<Action>): (r: State)
    decreases |actions|
  {
    if actions == [] then s else Run(l, Apply(l, s, actions[0]), actions[1..])
  }

  lemma {:induction false} RunKeeps(l: Layout, s: State, actions: seq<Action>)
    requires Invariant(l, s)
    ensures Invariant(l, Run(l, s, actions))
    ensures |Run(l, s, actions).tasks| == |s.tasks|
    ensures forall t :: 0 <= t < |s.tasks| ==> Run(l, s, actions).tasks[t].piece == s.tasks[t].piece
    decreases |actions|
  {
    hide Invariant, Apply;
    if actions != [] {
      ApplyKeeps(l, s, actions[0]);
      ApplyKeepsTasks(l, s, actions[0]);
      RunKeeps(l, Apply(l, s, actions[0]), actions[1..]);
    }
  }

  lemma ApplyKeepsTasks(l: Layout, s: State, a: Action)
    ensures |Apply(l, s, a).tasks| == |s.tasks|
    ensures forall t :: 0 <= t < |s.tasks| ==> Apply(l, s, a).tasks[t].piece == s.tasks[t].piece
  {
    hide FilesOf, Flat, PieceOffset, PieceLength, InRange, ValidLayout, UpToDate, OwnersMatch, Shaped, VisitFile, Invariant;
  }

  /** No torn reads, no lost writes. When any read or write finishes its loop, and still holds its
      locks, the buffer it returns (or was given) is the piece as the whole disk shows it. */
  lemma PieceIoIsAtomic(l: Layout, s: State, actions: seq<Action>, t: nat)
    requires ValidLayout(l) && Initial(l, s) && t < |s.tasks|
    ensures InRange(l, s.tasks[t].piece)
    ensures var r := Run(l, s, actions);
            && t < |r.tasks|
            && r.tasks[t].piece == s.tasks[t].piece
            && (r.tasks[t].phase == Finished(0) ==>
                  && |Flat(r.contents)| == l.total
                  && Outcome(r.tasks[t]) == PieceBytes(l, Flat(r.contents), s.tasks[t].piece))
  {
    hide FilesOf, Flat, PieceOffset, PieceLength, InRange, ValidLayout, OwnersMatch, Shaped;
    InitialInvariant(l, s);
    RunKeeps(l, s, actions);
  }

  predicate Blocked(l: Layout, s: State, t: nat)
    requires WellFormed(l, s) && t < |s.tasks|
  {
    Apply(l, s, Step(t)) == s
  }

  /** A task that is neither done nor able to step waits for a lock above every lock it holds. */
  lemma BlockedWaits(l: Layout, s: State, t: nat) returns (f: nat, owner: nat)
    requires Invariant(l, s) && t < |s.tasks| && Blocked(l, s, t) && !Done(l, s.tasks[t])
    ensures s.tasks[t].phase.Locking? && f < |s.owner| && s.owner[f] == Some(owner)
    ensures forall g :: g in Held(l, s.tasks[t]) ==> g < f
    ensures owner < |s.tasks| && !Done(l, s.tasks[owner]) && f in Held(l, s.tasks[owner])
  {
    hide FilesOf, Flat, PieceOffset, PieceLength, InRange, ValidLayout, Shaped, OffsetAt;
    var task := s.tasks[t];
    FilesOfSpec(l, task.piece);
    var ks := FilesOf(l, task.piece);
    assert WithPhase(s, t, task.phase) == s;
    WorkingMoves(l, s, t);
    f := ks[task.phase.n];
    owner := s.owner[f].value;
    assert Owns(s, owner, f);
    FilesOfSpec(l, s.tasks[owner].piece);
  }

  lemma WorkMoves(l: Layout, s: State, t: nat, k: nat, pos: nat)
    requires Invariant(l, s) && t < |s.tasks| && s.tasks[t].phase == Working(k, pos)
    ensures Work(l, s, t, k, pos).tasks[t].phase != Working(k, pos)
  {
    hide FilesOf, Flat, PieceOffset, PieceLength, InRange, OffsetAt;
    var task := s.tasks[t];
    if k < |l.files| && pos < PieceLength(l, task.piece) {
      PieceFits(l, task.piece);
      VisitAdvances(l, k, PieceOffset(l, task.piece), pos, PieceLength(l, task.piece));
    }
  }

  lemma WorkingMoves(l: Layout, s: State, t: nat)
    requires Invariant(l, s) && t < |s.tasks| && Blocked(l, s, t) && !Done(l, s.tasks[t])
    ensures s.tasks[t].phase.Locking? && s.tasks[t].phase.n < |FilesOf(l, s.tasks[t].piece)|
  {
    hide FilesOf, Flat, PieceOffset, PieceLength, InRange, ValidLayout, Shaped, OffsetAt, Work, UpToDate, OwnersMatch;
    var task := s.tasks[t];
    FilesOfSpec(l, task.piece);
    match task.phase
    case Working(k, pos) =>
      WorkMoves(l, s, t, k, pos);
      assert false;
    case Locking(n) =>
      if n >= |FilesOf(l, task.piece)| {
        assert false;
      }
    case Finished(n) =>
      assert false;
    case Unwinding(n) =>
      assert false;
  }

  /** Following the waits-for chain climbs strictly through the files, so it ends at a task that
      can step. `low` bounds the files already passed. */
  lemma {:induction false} FindRunnable(l: Layout, s: State, t: nat, low: nat) returns (u: nat)
    requires Invariant(l, s) && t < |s.tasks| && !Done(l, s.tasks[t])
    requires low == 0 || (low - 1 < |s.owner| && low - 1 in Held(l, s.tasks[t]))
    ensures u < |s.tasks| && !Blocked(l, s, u)
    decreases |s.owner| + 1 - low
  {
    hide FilesOf, Flat, InRange, OwnersMatch, UpToDate, ValidLayout, Shaped, Blocked, Held, Done;
    if !Blocked(l, s, t) {
      u := t;
    } else {
      var f, owner := BlockedWaits(l, s, t);
      u := FindRunnable(l, s, owner, f + 1);
    }
  }

  ghost predicate AllDone(l: Layout, s: State)
    requires WellFormed(l, s)
  {
    forall t :: 0 <= t < |s.tasks| ==> Done(l, s.tasks[t])
  }

  /** In every reachable state with any number of readers and writers, either all calls have
      returned or some task can take a step. */
  lemma NoDeadlock(l: Layout, s: State, actions: seq<Action>)
    requires ValidLayout(l) && Initial(l, s)
    ensures WellFormed(l, Run(l, s, actions))
    ensures var r := Run(l, s, actions);
            AllDone(l, r) || exists u :: 0 <= u < |r.tasks| && !Blocked(l, r, u)
  {
    hide FilesOf, Flat, InRange, Blocked, Held, Done, ValidLayout, Shaped, OwnersMatch, UpToDate;
    InitialInvariant(l, s);
    RunKeeps(l, s, actions);
    var r := Run(l, s, actions);
    if !AllDone(l, r) {
      var t :| 0 <= t < |r.tasks| && !Done(l, r.tasks[t]);
      var u := FindRunnable(l, r, t, 0);
    }
  }

  // ---------------------------------------------------------------------------
  // Every call can be driven to its end
  // ---------------------------------------------------------------------------

  function Remaining(l: Layout, task: Task): (n: nat)
    requires InRange(l, task.piece)
  {
    var locks, files := |FilesOf(l, task.piece)|, |l.files|;
    match task.phase
    case Locking(n) => locks - Min(n, locks) + files + 2 + locks
    case Working(k, _) => files - Min(k, files) + 1 + locks
    case Finished(n) => locks - Min(n, locks)
    case Unwinding(n) => locks - Min(n, locks)
  }

  ghost function TotalRemaining(l: Layout, s: State): (n: nat)
    requires WellFormed(l, s)
  {
    Sum(Remainders(l, s.tasks))
  }

  ghost function Remainders(l: Layout, tasks: seq<Task>): (ws: seq<nat>)
    requires forall t :: 0 <= t < |tasks| ==> InRange(l, tasks[t].piece)
    ensures |ws| == |tasks|
    ensures forall t :: 0 <= t < |tasks| ==> ws[t] == Remaining(l, tasks[t])
  {
    if tasks == [] then [] else Remainders(l, tasks[..|tasks| - 1]) + [Remaining(l, tasks[|tasks| - 1])]
  }

  /** Every step that changes anything uses up work. */
  lemma StepConsumes(l: Layout, s: State, a: Action)
    requires Invariant(l, s) && Apply(l, s, a) != s
    ensures Invariant(l, Apply(l, s, a))
    ensures TotalRemaining(l, Apply(l, s, a)) < TotalRemaining(l, s)
  {
    hide FilesOf, Flat, PieceOffset, PieceLength, InRange, ValidLayout, UpToDate, Shaped, OwnersMatch, Sum, Apply,
         Remaining;
    var r := Apply(l, s, a);
    ApplyKeeps(l, s, a);
    TaskConsumes(l, s, a);
    var ws := Remainders(l, s.tasks);
    SumUpdate(ws, a.t, Remaining(l, r.tasks[a.t]));
    assert ws[a.t := Remaining(l, r.tasks[a.t])] == Remainders(l, r.tasks);
  }

  /** The one task that moves comes nearer to its end. */
  lemma TaskConsumes(l: Layout, s: State, a: Action)
    requires WellFormed(l, s) && Apply(l, s, a) != s
    ensures var r := Apply(l, s, a);
            && a.t < |s.tasks| == |r.tasks|
            && r.tasks == s.tasks[a.t := r.tasks[a.t]]
            && GoodTask(l, r.tasks[a.t]) && Remaining(l, r.tasks[a.t]) < Remaining(l, s.tasks[a.t])
  {
    hide FilesOf, PieceOffset, PieceLength, InRange, ValidLayout, Shaped, VisitFile, Patch, Sized;
  }

  /** From every reachable state some schedule lets every call return. */
  lemma {:induction false} Drain(l: Layout, s: State) returns (actions: seq<Action>)
    requires Invariant(l, s)
    ensures WellFormed(l, Run(l, s, actions)) && AllDone(l, Run(l, s, actions))
    decreases TotalRemaining(l, s)
  {
    hide FilesOf, Flat, PieceOffset, PieceLength, InRange, ValidLayout, UpToDate, Shaped, OwnersMatch, Held, Done,
         TotalRemaining, Apply;
    if AllDone(l, s) {
      actions := [];
    } else {
      var t :| 0 <= t < |s.tasks| && !Done(l, s.tasks[t]);
      var u := FindRunnable(l, s, t, 0);
      StepConsumes(l, s, Step(u));
      var rest := Drain(l, Apply(l, s, Step(u)));
      actions := [Step(u)] + rest;
      assert actions[1..] == rest;
    }
  }
}
