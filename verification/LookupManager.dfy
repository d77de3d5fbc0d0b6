/** All get_peers lookups of a node and the transactions that route their replies
    (src/dht/get_peers_lookup_manager.cpp). */
module LookupManager {
  import opened NodeIds
  import opened Nearest
  import opened Lookup

  const TXN_TTL: int := 30 * 1000          // milliseconds
  const LOOKUP_TTL: int := 5 * 60 * 1000

  type InfoHash = NodeId

  datatype Config = Config(self: NodeId, sort: Sort)

  datatype Binding = Binding(hash: InfoHash, at: int)

  datatype Outbound = Outbound(txn: Txn, hash: InfoHash, to: PeerAddress)

  /** What one call meets: the clock, the routing table's answers to its successive queries about a
      hash, and the random transaction ids drawn for a hash. */
  datatype Env = Env(now: int, closest: (InfoHash, nat) -> seq<Entry>, txn: (InfoHash, nat) -> Txn)

  /** pending_lookups_ and kademlia_lookups_. `completed` is the history of finished lookups and
      `collided` records whether a drawn id was already bound; no operation reads them. */
  datatype Manager = Manager(pending: map<Txn, Binding>, lookups: map<InfoHash, Lookup>,
                             completed: seq<Lookup>, collided: bool)

  // ---------------------------------------------------------------------------
  // Operations
  // ---------------------------------------------------------------------------

  function Expired(m: Manager, now: int): (xs: set<Txn>) {
    set x | x in m.pending && now - m.pending[x].at >= TXN_TTL
  }

  /** expire_pending_lookups_locked */
  function ExpirePending(m: Manager, now: int): (r: Manager) {
    m.(pending := m.pending - Expired(m, now),
       lookups := map h | h in m.lookups :: m.lookups[h].(
         pending := set x | x in m.lookups[h].pending && !(x in Expired(m, now) && m.pending[x].hash == h)))
  }

  function Stale(m: Manager, now: int): (hs: set<InfoHash>) {
    set h | h in m.lookups && now - m.lookups[h].started >= LOOKUP_TTL
  }

  /** expire_active_lookups_locked */
  function ExpireActive(m: Manager, now: int): (r: Manager) {
    m.(pending := map x | x in m.pending
                       && (forall h :: h in Stale(m, now) ==> x !in m.lookups[h].pending) :: m.pending[x],
       lookups := m.lookups - Stale(m, now))
  }

  function Finish(m: Manager, h: InfoHash): (r: Manager) {
    if h !in m.lookups then m
    else m.(pending := m.pending - m.lookups[h].pending, lookups := m.lookups - {h},
            completed := m.completed + [m.lookups[h]])
  }

  /** lookup_should_finish, which may replenish the lookup from the routing table. */
  function ShouldFinish(c: Config, lk: Lookup, closest: seq<Entry>): (r: (bool, Lookup)) {
    if lk.pending != {} || !AllQueried(lk) then (false, lk)
    else if closest == [] then (true, lk)
    else var merged := Merge(c.sort, c.self, lk, closest); (AllQueried(merged), merged)
  }

  function Put(m: Manager, h: InfoHash, lk: Lookup): (r: Manager) {
    m.(lookups := m.lookups[h := lk])
  }

  /** One query: draw an id, list it as pending, bind it. */
  function Send(m: Manager, h: InfoHash, txn: Txn, now: int): (r: Manager)
    requires h in m.lookups
  {
    Put(m, h, m.lookups[h].(pending := m.lookups[h].pending + {txn})).(
      pending := m.pending[txn := Binding(h, now)],
      collided := m.collided || txn in m.pending)
  }

  function SendAll(m: Manager, h: InfoHash, count: nat, env: Env): (r: Manager)
    requires h in m.lookups
    ensures h in r.lookups
  {
    if count == 0 then m else Send(SendAll(m, h, count - 1, env), h, env.txn(h, count - 1), env.now)
  }

  function Messages(h: InfoHash, nodes: seq<Entry>, env: Env): (r: seq<Outbound>) {
    seq(|nodes|, j requires 0 <= j < |nodes| => Outbound(env.txn(h, j), h, nodes[j].addr))
  }

  datatype Advanced = Advanced(m: Manager, outbound: seq<Outbound>, completed: bool)

  /** advance_lookup; `call` numbers its first query of the routing table. */
  function Advance(c: Config, m: Manager, h: InfoHash, env: Env, call: nat): (r: Advanced) {
    if h !in m.lookups then Advanced(m, [], false)
    else
      var first := ShouldFinish(c, m.lookups[h], env.closest(h, call));
      var m1 := Put(m, h, first.1);
      if first.0 then Advanced(Finish(m1, h), [], true)
      else if |first.1.pending| >= LOOKUP_ALPHA then Advanced(m1, [], false)
      else
        var selected := Select(first.1, LOOKUP_ALPHA - |first.1.pending|);
        var m2 := SendAll(Put(m1, h, selected.0), h, |selected.1|, env);
        if selected.1 != [] then Advanced(m2, Messages(h, selected.1, env), false)
        else
          var second := ShouldFinish(c, m2.lookups[h], env.closest(h, call + 1));
          var m3 := Put(m2, h, second.1);
          if second.0 then Advanced(Finish(m3, h), [], true) else Advanced(m3, [], false)
  }

  datatype Outcome = Outcome(m: Manager, outbound: seq<Outbound>, completed: bool)

  /** start_or_advance, once the routing table has candidates. */
  function StartOrAdvance(c: Config, m: Manager, h: InfoHash, env: Env): (r: Outcome) {
    var seeds := env.closest(h, 0);
    if seeds == [] then Outcome(m, [], false)
    else
      var m1 := ExpireActive(ExpirePending(m, env.now), env.now);
      var a :=
        if h !in m1.lookups || m1.lookups[h].pending != {} then Advanced(m1, [], false)
        else
          var finish := ShouldFinish(c, m1.lookups[h], env.closest(h, 1));
          if finish.0 then Advanced(Finish(Put(m1, h, finish.1), h), [], true)
          else Advance(c, Put(m1, h, finish.1), h, env, 2);
      if a.outbound == [] && h !in a.m.lookups then
        var b := Advance(c, Put(a.m, h, NewLookup(h, seeds, env.now)), h, env, 4);
        Outcome(b.m, b.outbound, b.completed)
      else Outcome(a.m, a.outbound, a.completed)
  }

  /** on_lookup_response: drop the transaction, merge the nodes, perhaps finish. */
  function Absorb(c: Config, m: Manager, h: InfoHash, txn: Txn, nodes: seq<Entry>, env: Env): (r: Manager)
    requires h in m.lookups
  {
    var lk := m.lookups[h];
    var finish := ShouldFinish(c, Merge(c.sort, c.self, lk.(pending := lk.pending - {txn}), nodes), env.closest(h, 0));
    if finish.0 then Finish(Put(m, h, finish.1), h) else Put(m, h, finish.1)
  }

  /** on_response; the last step erases the binding of the answered transaction. */
  function OnResponse(c: Config, m: Manager, txn: Txn, nodes: seq<Entry>, env: Env): (r: Outcome) {
    if txn !in m.pending then Outcome(m, [], false)
    else
      var h := m.pending[txn].hash;
      if h !in m.lookups then Outcome(m.(pending := m.pending - {txn}), [], false)
      else
        var m1 := Absorb(c, m, h, txn, nodes, env);
        if h in m1.lookups then
          var a := Advance(c, m1, h, env, 1);
          Outcome(a.m.(pending := a.m.pending - {txn}), a.outbound, a.completed)
        else Outcome(m1.(pending := m1.pending - {txn}), [], true)
  }

  function AdvanceEach(c: Config, m: Manager, hashes: seq<InfoHash>, env: Env): (r: Manager) {
    if hashes == [] then m
    else Advance(c, AdvanceEach(c, m, hashes[..|hashes| - 1], env), hashes[|hashes| - 1], env, 0).m
  }

  /** What those advances send. */
  function EachOutbound(c: Config, m: Manager, hashes: seq<InfoHash>, env: Env): (r: seq<Outbound>) {
    if hashes == [] then []
    else
      var before := hashes[..|hashes| - 1];
      EachOutbound(c, m, before, env) + Advance(c, AdvanceEach(c, m, before, env), hashes[|hashes| - 1], env, 0).outbound
  }

  /** tick, visiting the lookups in the order of the hash table. */
  function Tick(c: Config, m: Manager, order: seq<InfoHash>, env: Env): (r: Manager) {
    AdvanceEach(c, ExpirePending(m, env.now), order, env)
  }

  datatype Op =
    | Start(hash: InfoHash, env: Env)
    | Response(txn: Txn, nodes: seq<Entry>, env: Env)
    | TickAll(order: seq<InfoHash>, env: Env)
    | ExpireTxns(now: int)
    | ExpireLookups(now: int)

  function Apply(c: Config, m: Manager, op: Op): (r: Manager) {
    match op
    case Start(h, env) => StartOrAdvance(c, m, h, env).m
    case Response(txn, nodes, env) => OnResponse(c, m, txn, nodes, env).m
    case TickAll(order, env) => Tick(c, m, order, env)
    case ExpireTxns(now) => ExpirePending(m, now)
    case ExpireLookups(now) => ExpireActive(m, now)
  }

  function Run(c: Config, ops: seq<Op>): (m: Manager) {
    if ops == [] then Manager(map[], map[], [], false)
    else Apply(c, Run(c, ops[..|ops| - 1]), ops[|ops| - 1])
  }

  /** The routing table answers with at most eight nodes, nearest first. */
  ghost predicate EnvOk(env: Env) {
    forall h, k :: env.closest(h, k) == [] || Seeds(h, env.closest(h, k))
  }

  ghost predicate OpOk(op: Op) {
    match op
    case Start(_, env) => EnvOk(env)
    case Response(_, _, env) => EnvOk(env)
    case TickAll(_, env) => EnvOk(env)
    case _ => true
  }
}
