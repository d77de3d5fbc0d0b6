/** The lock-free piece download protocol: any number of peer threads claim, verify, store and
    count pieces (src/peer_wire/piece_manager.cpp, src/peer_wire/peer_connection.cpp).
    One step per atomic load, compare-and-swap, store or file write, in any interleaving. */
module Download {
  import opened Common
  import opened Disk

  type Hash = seq<Byte>

  datatype Config = Config(layout: Layout, nominal: nat, hashes: seq<Hash>, sha: seq<Byte> -> Hash)

  function NumPieces(c: Config): (n: nat) {
    |c.hashes|
  }

  /** PieceManager::piece_length, with its 32-bit wrap of the index and cast of the remainder. */
  function ManagerLength(c: Config, index: nat): (n: nat) {
    if (index + 1) % TWO32 < NumPieces(c) then c.nominal
    else (c.layout.total - c.nominal * (NumPieces(c) - 1)) % TWO32
  }

  // ---------------------------------------------------------------------------
  // States
  // ---------------------------------------------------------------------------

  datatype Pc =
    | Idle                                        // in run(), between messages
    | CheckCurrent                                // fill_requests: have_piece(current)
    | Scan(i: nat)                                // next_needed: first loop, before the have load
    | TryClaim(i: nat)                            // next_needed: the CAS on claimed
    | Endgame(i: nat)                             // next_needed: second loop
    | Enter(data: seq<Byte>)                      // complete_piece: first have load
    | Recheck                                     // complete_piece: have load after a bad hash
    | TryHave(data: seq<Byte>)                    // complete_piece: the CAS on have
    | Write(data: seq<Byte>, k: nat, pos: nat)    // write_piece, at file k
    | AddBytes                                    // complete_piece: downloaded bytes
    | AddCount                                    // complete_piece: completed count
    | ReleaseLoad(closing: bool)                  // abort_piece: the have load
    | ReleaseStore(closing: bool)                 // abort_piece: the claimed store
    | Closed                                      // destroyed

  datatype Conn = Conn(pc: Pc, bitfield: seq<bool>, current: Option<nat>, exclusive: bool)

  /** How far the single winner of a piece has got; a history variable no step reads. */
  datatype Stage = Missing | Writing(t: nat) | Written(t: nat) | Banked(t: nat) | Counted | Lost

  /** have, claimed, bytes, count and contents are the shared variables of the source;
      stage and owner are history variables that no step reads. */
  datatype State = State(have: seq<bool>, claimed: seq<bool>, bytes: nat, count: nat,
                         contents: seq<seq<Byte>>, conns: map<nat, Conn>,
                         stage: seq<Stage>, owner: seq<Option<nat>>)

  predicate Initial(c: Config, s: State) {
    && s.have == s.claimed == seq(NumPieces(c), _ => false)
    && s.stage == seq(NumPieces(c), _ => Missing)
    && s.owner == seq(NumPieces(c), _ => None)
    && s.bytes == s.count == 0
    && Shaped(c.layout, s.contents)
    && s.conns == map[]
  }

  /** What an idle connection meets in run(). */
  datatype Event =
    | Announce(i: nat)               // a have or bitfield message
    | Fill                           // fill_requests
    | Choke                          // handle_choke
    | Deliver(data: seq<Byte>)       // the last block: complete_piece with any buffer
    | Disconnect                     // an exception or the end of run(): the destructor

  datatype Action =
    | Connect(t: nat)                          // a new peer thread
    | Receive(t: nat, event: Event)
    | Step(t: nat)                             // the next atomic operation of a thread
    | WriteFails(t: nat, torn: seq<Byte>)      // an I/O error inside write_piece

  // ---------------------------------------------------------------------------
  // Steps
  // ---------------------------------------------------------------------------

  predicate ShapeOk(c: Config, s: State) {
    && ValidLayout(c.layout) && Shaped(c.layout, s.contents)
    && |s.have| == |s.claimed| == |s.stage| == |s.owner| == NumPieces(c)
  }

  predicate ConnShape(c: Config, conn: Conn) {
    && (conn.current.Some? ==> conn.current.value < NumPieces(c))
    && (conn.exclusive ==> conn.current.Some?)
    && (match conn.pc
        case Scan(_) => conn.current.None?
        case TryClaim(i) => conn.current.None? && i < NumPieces(c)
        case Endgame(_) => conn.current.None?
        case Closed => conn.current.None?
        case Idle => true
        case ReleaseLoad(_) => conn.exclusive
        case ReleaseStore(_) => conn.exclusive
        case TryHave(data) => conn.current.Some? && c.sha(data) == c.hashes[conn.current.value]
        case Write(data, _, _) => conn.current.Some? && c.sha(data) == c.hashes[conn.current.value]
        case _ => conn.current.Some?)
  }

  predicate Offers(conn: Conn, i: nat) {
    i < |conn.bitfield| && conn.bitfield[i]
  }

  function Put(s: State, t: nat, conn: Conn): (r: State) {
    s.(conns := s.conns[t := conn])
  }

  function Goto(s: State, t: nat, pc: Pc): (r: State)
    requires t in s.conns
  {
    Put(s, t, s.conns[t].(pc := pc))
  }

  /** m_current_piece.reset(), then back to the loop or on to destruction. */
  function Drop(s: State, t: nat, next: Pc): (r: State)
    requires t in s.conns
  {
    var conn := s.conns[t];
    var owner := if conn.exclusive && conn.current.Some? && conn.current.value < |s.owner|
                 then s.owner[conn.current.value := None] else s.owner;
    Put(s, t, conn.(pc := next, current := None, exclusive := false)).(owner := owner)
  }

  /** The destructor: release an exclusive claim, if any. */
  function Unwind(s: State, t: nat): (r: State)
    requires t in s.conns
  {
    if s.conns[t].exclusive then Goto(s, t, ReleaseLoad(true)) else Drop(s, t, Closed)
  }

  function AfterAbort(closing: bool): (pc: Pc) {
    if closing then Closed else Idle
  }

  /** write_piece throws: the piece stays marked as had and is never counted. */
  function Fail(s: State, t: nat, i: nat): (r: State)
    requires t in s.conns && i < |s.stage|
  {
    Unwind(s.(stage := s.stage[i := Lost]), t)
  }

  predicate Fits(c: Config, i: nat, data: seq<Byte>) {
    InRange(c.layout, i) && |data| == PieceLength(c.layout, i)
  }

  function WriteStep(c: Config, s: State, t: nat, i: nat, data: seq<Byte>, k: nat, pos: nat): (r: State)
    requires ShapeOk(c, s) && t in s.conns && i < NumPieces(c)
  {
    var l := c.layout;
    if !Fits(c, i, data) then Fail(s, t, i)
    else if pos == |data| then Goto(s, t, AddBytes).(stage := s.stage[i := Written(t)])
    else if k >= |l.files| || pos > |data| then Fail(s, t, i)
    else match VisitFile(l.files[k], PieceOffset(l, i) + pos, |data| - pos)
      case Skip => Goto(s, t, Write(data, k + 1, pos))
      case Stop => Fail(s, t, i)
      case Touch(start, chunk) =>
        if pos + chunk > |data| || start + chunk > |s.contents[k]| then Fail(s, t, i)
        else Goto(s, t, Write(data, k + 1, pos + chunk)).(
               contents := s.contents[k := Patch(s.contents[k], start, data[pos..pos + chunk])])
  }

  /** An I/O error at file k leaves arbitrary bytes in the chunk being written. */
  function WriteFault(c: Config, s: State, t: nat, i: nat, data: seq<Byte>, k: nat, pos: nat, torn: seq<Byte>): (r: State)
    requires ShapeOk(c, s) && t in s.conns && i < NumPieces(c)
  {
    var l := c.layout;
    if !Fits(c, i, data) || pos >= |data| || k >= |l.files| then s
    else match VisitFile(l.files[k], PieceOffset(l, i) + pos, |data| - pos)
      case Touch(start, chunk) =>
        if |torn| == chunk && start + chunk <= |s.contents[k]|
        then Fail(s.(contents := s.contents[k := Patch(s.contents[k], start, torn)]), t, i)
        else Fail(s, t, i)
      case _ => s
  }

  function StepConn(c: Config, s: State, t: nat): (r: State)
    requires ShapeOk(c, s) && t in s.conns && ConnShape(c, s.conns[t])
  {
    var conn := s.conns[t];
    var n := NumPieces(c);
    match conn.pc
    case Idle => s
    case Closed => s
    case CheckCurrent =>
      if s.have[conn.current.value] then Drop(s, t, Scan(0)) else Goto(s, t, Idle)
    case Scan(i) =>
      if i >= n then Goto(s, t, Endgame(0))
      else if !Offers(conn, i) || s.have[i] then Goto(s, t, Scan(i + 1))
      else Goto(s, t, TryClaim(i))
    case TryClaim(i) =>
      if s.claimed[i] then Goto(s, t, Scan(i + 1))
      else Put(s, t, conn.(pc := Idle, current := Some(i), exclusive := true)).(
             claimed := s.claimed[i := true], owner := s.owner[i := Some(t)])
    case Endgame(i) =>
      if i >= n then Goto(s, t, Idle)
      else if !Offers(conn, i) || s.have[i] then Goto(s, t, Endgame(i + 1))
      else Put(s, t, conn.(pc := Idle, current := Some(i), exclusive := false))
    case Enter(data) =>
      if s.have[conn.current.value] then Drop(s, t, Idle)
      else if c.sha(data) == c.hashes[conn.current.value] then Goto(s, t, TryHave(data))
      else Goto(s, t, Recheck)
    case Recheck =>
      if s.have[conn.current.value] || !conn.exclusive then Drop(s, t, Idle)
      else Goto(s, t, ReleaseLoad(false))
    case TryHave(data) =>
      var i := conn.current.value;
      if s.have[i] then Drop(s, t, Idle)
      else Goto(s, t, Write(data, 0, 0)).(have := s.have[i := true], stage := s.stage[i := Writing(t)])
    case Write(data, k, pos) => WriteStep(c, s, t, conn.current.value, data, k, pos)
    case AddBytes =>
      var i := conn.current.value;
      Goto(s, t, AddCount).(bytes := s.bytes + ManagerLength(c, i), stage := s.stage[i := Banked(t)])
    case AddCount =>
      var i := conn.current.value;
      Drop(s, t, Idle).(count := s.count + 1, stage := s.stage[i := Counted])
    case ReleaseLoad(closing) =>
      if s.have[conn.current.value] then Drop(s, t, AfterAbort(closing)) else Goto(s, t, ReleaseStore(closing))
    case ReleaseStore(closing) =>
      Drop(s, t, AfterAbort(closing)).(claimed := s.claimed[conn.current.value := false])
  }

  function Handle(s: State, t: nat, event: Event): (r: State)
    requires t in s.conns
  {
    var conn := s.conns[t];
    match event
    case Announce(i) =>
      if i < |conn.bitfield| then Put(s, t, conn.(bitfield := conn.bitfield[i := true])) else s
    case Fill => Goto(s, t, if conn.current.Some? then CheckCurrent else Scan(0))
    case Choke => if conn.exclusive then Goto(s, t, ReleaseLoad(false)) else Drop(s, t, Idle)
    case Deliver(data) => if conn.current.Some? then Goto(s, t, Enter(data)) else s
    case Disconnect => Unwind(s, t)
  }

  function NewConn(c: Config): (conn: Conn) {
    Conn(Idle, seq(NumPieces(c), _ => false), None, false)
  }

  function Apply(c: Config, s: State, a: Action): (r: State) {
    if !ShapeOk(c, s) then s
    else if a.Connect? then if a.t in s.conns then s else Put(s, a.t, NewConn(c))
    else if a.t !in s.conns || !ConnShape(c, s.conns[a.t]) then s
    else if a.Step? then StepConn(c, s, a.t)
    else if a.WriteFails? then
      var conn := s.conns[a.t];
      if conn.pc.Write?
      then WriteFault(c, s, a.t, conn.current.value, conn.pc.data, conn.pc.k, conn.pc.pos, a.torn) else s
    else if s.conns[a.t].pc.Idle? then Handle(s, a.t, a.event)
    else s
  }

  function Run(c: Config, s: State, actions: seq<Action>): (r: State)
    decreases |actions|
  {
    if actions == [] then s else Run(c, Apply(c, s, actions[0]), actions[1..])
  }
}
