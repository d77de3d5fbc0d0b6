/** What a lookup knows, told from the operations alone: its seeds, the answers to its own
    transactions and the routing table's answers when it had run dry. */
module LookupHistory {
  import opened Common
  import opened NodeIds
  import opened Nearest
  import opened Lookup
  import opened LookupManager
  import opened LookupTheorems

  // ---------------------------------------------------------------------------
  // What is heard
  // ---------------------------------------------------------------------------

  predicate Asked(candidates: seq<Entry>, queried: set<PeerAddress>) {
    forall i :: 0 <= i < |candidates| ==> candidates[i].addr in queried
  }

  /** Nobody left to ask and nothing to wait for. */
  predicate Dry(candidates: seq<Entry>, queried: set<PeerAddress>, waiting: set<Txn>) {
    waiting == {} && Asked(candidates, queried)
  }

  /** The eight nearest of the candidates and some more nodes, ourselves left out. */
  function With(c: Config, lk: Lookup, candidates: seq<Entry>, nodes: seq<Entry>): (r: seq<Entry>) {
    Take(K, c.sort(lk.target, candidates + Others(nodes, c.self)))
  }

  /** The lookup has run dry and the routing table knows nobody new. */
  predicate Done(c: Config, lk: Lookup, candidates: seq<Entry>, waiting: set<Txn>, table: seq<Entry>) {
    Dry(candidates, lk.queried, waiting) && (table == [] || Asked(With(c, lk, candidates, table), lk.queried))
  }

  /** The transactions of a live lookup that are still waited for at `now`. */
  function Waiting(m: Manager, h: InfoHash, now: int): (xs: set<Txn>)
    requires h in m.lookups
  {
    set x | x in m.lookups[h].pending
         && !(x in m.pending && m.pending[x].hash == h && now - m.pending[x].at >= 30 * 1000)
  }

  predicate Answers(m: Manager, op: Op, h: InfoHash) {
    op.Response? && op.txn in m.pending && m.pending[op.txn].hash == h
  }

  predicate TooOld(m: Manager, h: InfoHash, now: int)
    requires h in m.lookups
  {
    now - m.lookups[h].started >= 5 * 60 * 1000
  }

  /** The operation looks at the lookup on its own account, when no answer has come. */
  predicate Revisits(m: Manager, op: Op, h: InfoHash) {
    (op.TickAll? && h in op.order) || (op.Start? && op.hash == h && op.env.closest(h, 0) != [])
  }

  /** The query of the routing table that a revisit makes is the first of a tick, the second of a start. */
  function Table(op: Op, h: InfoHash): (table: seq<Entry>)
    requires op.TickAll? || op.Start?
  {
    op.env.closest(h, if op.Start? then 1 else 0)
  }

  /** What a live lookup hears during one operation. */
  function HeardIn(c: Config, m: Manager, op: Op, h: InfoHash): (heard: multiset<Entry>)
    requires h in m.lookups
  {
    var lk := m.lookups[h];
    if Answers(m, op, h) then
      var dry := Dry(With(c, lk, lk.candidates, op.nodes), lk.queried, lk.pending - {op.txn});
      multiset(Others(op.nodes, c.self)) + multiset(Others(if dry then op.env.closest(h, 0) else [], c.self))
    else if Revisits(m, op, h) then
      var dry := Dry(lk.candidates, lk.queried, Waiting(m, h, op.env.now));
      multiset(Others(if dry then Table(op, h) else [], c.self))
    else multiset{}
  }

  /** The operation completes the lookup. */
  predicate Completes(c: Config, m: Manager, op: Op, h: InfoHash)
    requires h in m.lookups
  {
    var lk := m.lookups[h];
    if Answers(m, op, h) then
      Done(c, lk, With(c, lk, lk.candidates, op.nodes), lk.pending - {op.txn}, op.env.closest(h, 0))
    else
      && Revisits(m, op, h) && (op.Start? ==> !TooOld(m, h, op.env.now))
      && Done(c, lk, lk.candidates, Waiting(m, h, op.env.now), Table(op, h))
  }

  /** The operation drops the lookup for its age. */
  predicate Outlives(m: Manager, op: Op, h: InfoHash)
    requires h in m.lookups
  {
    || (op.ExpireLookups? && TooOld(m, h, op.now))
    || (op.Start? && op.env.closest(op.hash, 0) != [] && TooOld(m, h, op.env.now))
  }

  /** The operation starts a new lookup for the hash. */
  predicate Begins(c: Config, m: Manager, op: Op, h: InfoHash) {
    && op.Start? && op.hash == h && op.env.closest(h, 0) != []
    && (h in m.lookups ==> Outlives(m, op, h) || Completes(c, m, op, h))
  }

  /** Everything the present lookup of a hash has heard. */
  function Heard(c: Config, ops: seq<Op>, h: InfoHash): (heard: multiset<Entry>) {
    if ops == [] then multiset{}
    else
      var before, op := ops[..|ops| - 1], ops[|ops| - 1];
      var m := Run(c, before);
      if Begins(c, m, op, h) then multiset(op.env.closest(h, 0))
      else if h in m.lookups then Heard(c, before, h) + HeardIn(c, m, op, h)
      else multiset{}
  }

  // ---------------------------------------------------------------------------
  // One operation
  // ---------------------------------------------------------------------------

  predicate Hears(a: Lookup, b: Lookup, heard: multiset<Entry>) {
    b.target == a.target && b.started == a.started && b.learned == a.learned + heard
  }

  /** Lookup h, live in m, hears something and ends or goes on; the others stay as they are. */
  ghost predicate Moves(m: Manager, r: Manager, h: InfoHash, heard: multiset<Entry>, ends: bool) {
    && h in m.lookups && (h in r.lookups <==> !ends)
    && (forall g :: g != h ==> (g in r.lookups <==> g in m.lookups))
    && (forall g :: g != h && g in m.lookups ==> r.lookups[g] == m.lookups[g])
    && (!ends ==> r.completed == m.completed && Hears(m.lookups[h], r.lookups[h], heard))
    && (ends ==> exists lk :: r.completed == m.completed + [lk] && Hears(m.lookups[h], lk, heard))
  }

  /** ShouldFinish, said with the words above. */
  lemma FinishTest(c: Config, lk: Lookup, table: seq<Entry>)
    ensures var f := ShouldFinish(c, lk, table);
            && f.0 == Done(c, lk, lk.candidates, lk.pending, table)
            && f.1.pending == lk.pending && f.1.queried == lk.queried
            && Hears(lk, f.1, multiset(Others(if Dry(lk.candidates, lk.queried, lk.pending) then table else [], c.self)))
            && (!f.0 ==> !Dry(f.1.candidates, f.1.queried, f.1.pending))
  {
    hide Take;
    assert Others([], c.self) == [];
    assert lk.learned + multiset{} == lk.learned;
  }

  lemma {:induction false} SendsOnly(m: Manager, h: InfoHash, count: nat, env: Env)
    requires h in m.lookups
    ensures var r := SendAll(m, h, count, env);
            && r.lookups.Keys == m.lookups.Keys && r.completed == m.completed
            && (forall g :: g != h && g in m.lookups ==> r.lookups[g] == m.lookups[g])
            && Hears(m.lookups[h], r.lookups[h], multiset{})
            && (count > 0 || m.lookups[h].pending != {} ==> r.lookups[h].pending != {})
  {
    if count > 0 {
      SendsOnly(m, h, count - 1, env);
    }
  }

  lemma PutMoves(m: Manager, h: InfoHash, lk: Lookup, heard: multiset<Entry>)
    requires h in m.lookups && Hears(m.lookups[h], lk, heard)
    ensures Moves(m, Put(m, h, lk), h, heard, false)
  {
  }

  lemma FinishMoves(m: Manager, h: InfoHash, lk: Lookup, heard: multiset<Entry>)
    requires h in m.lookups && Hears(m.lookups[h], lk, heard)
    ensures Moves(m, Finish(Put(m, h, lk), h), h, heard, true)
  {
    assert Finish(Put(m, h, lk), h).completed == m.completed + [lk];
  }

  lemma SendMoves(m: Manager, h: InfoHash, lk: Lookup, count: nat, env: Env, heard: multiset<Entry>)
    requires h in m.lookups && Hears(m.lookups[h], lk, heard) && (count > 0 || lk.pending != {})
    ensures var r := SendAll(Put(m, h, lk), h, count, env);
            Moves(m, r, h, heard, false) && h in r.lookups && r.lookups[h].pending != {}
  {
    hide SendAll;
    SendsOnly(Put(m, h, lk), h, count, env);
  }

  /** advance_lookup hears the routing table when the lookup has run dry; if it goes on, it waits for
      somebody. */
  lemma AdvanceHears(c: Config, m: Manager, h: InfoHash, env: Env, call: nat)
    requires h in m.lookups
    ensures var lk, table, r := m.lookups[h], env.closest(h, call), Advance(c, m, h, env, call).m;
            && Moves(m, r, h, multiset(Others(if Dry(lk.candidates, lk.queried, lk.pending) then table else [], c.self)),
                     Done(c, lk, lk.candidates, lk.pending, table))
            && (h in r.lookups ==> r.lookups[h].pending != {})
  {
    hide Advance, ShouldFinish, SendAll, Selection, Others, Done, Dry, Moves, Finish;
    SecondFinishTestIsDead(c, m, h, env, call);
    var lk, table := m.lookups[h], env.closest(h, call);
    var heard := multiset(Others(if Dry(lk.candidates, lk.queried, lk.pending) then table else [], c.self));
    FinishTest(c, lk, table);
    var first := ShouldFinish(c, lk, table);
    var m1 := Put(m, h, first.1);
    if first.0 {
      FinishMoves(m, h, first.1, heard);
      MovesEnds(m, Finish(m1, h), h, heard);
    } else if |first.1.pending| >= LOOKUP_ALPHA {
      PutMoves(m, h, first.1, heard);
    } else {
      var count := LOOKUP_ALPHA - |first.1.pending|;
      var selected := Select(first.1, count);
      SelectionSpec(first.1.candidates, first.1.queried, count);
      NotDry(first.1);
      assert Put(m1, h, selected.0) == Put(m, h, selected.0);
      SendMoves(m, h, selected.0, |selected.1|, env, heard);
    }
  }

  lemma MovesEnds(m: Manager, r: Manager, h: InfoHash, heard: multiset<Entry>)
    requires Moves(m, r, h, heard, true)
    ensures h !in r.lookups
  {
  }

  lemma NotDry(lk: Lookup)
    ensures Dry(lk.candidates, lk.queried, lk.pending)
            || lk.pending != {} || exists i :: 0 <= i < |lk.candidates| && lk.candidates[i].addr !in lk.queried
  {
  }

  lemma NothingHeard(self: NodeId)
    ensures multiset(Others([], self)) == multiset{}
  {
  }

  /** A lookup that has not run dry only sends. */
  lemma QuietAdvance(c: Config, m: Manager, h: InfoHash, env: Env, call: nat)
    requires h in m.lookups && !Dry(m.lookups[h].candidates, m.lookups[h].queried, m.lookups[h].pending)
    ensures var r := Advance(c, m, h, env, call).m;
            Moves(m, r, h, multiset{}, false) && h in r.lookups && r.lookups[h].pending != {}
  {
    hide Advance, Others, Dry, Moves;
    AdvanceHears(c, m, h, env, call);
    NothingHeard(c.self);
    var r := Advance(c, m, h, env, call).m;
    assert Moves(m, r, h, multiset{}, false);
    MovesGoesOn(m, r, h, multiset{});
  }

  lemma MovesGoesOn(m: Manager, r: Manager, h: InfoHash, heard: multiset<Entry>)
    requires Moves(m, r, h, heard, false)
    ensures h in r.lookups
  {
  }

  lemma MovesThen(m: Manager, m1: Manager, r: Manager, h: InfoHash, heard: multiset<Entry>)
    requires Moves(m, m1, h, heard, false) && Moves(m1, r, h, multiset{}, false)
    ensures Moves(m, r, h, heard, false)
  {
    assert (m.lookups[h].learned + heard) + multiset{} == m.lookups[h].learned + heard;
  }

  // ---------------------------------------------------------------------------
  // Answers
  // ---------------------------------------------------------------------------

  lemma AbsorbMoves(c: Config, m: Manager, op: Op, h: InfoHash)
    requires h in m.lookups && Answers(m, op, h)
    ensures var r := Absorb(c, m, h, op.txn, op.nodes, op.env);
            && Moves(m, r, h, HeardIn(c, m, op, h), Completes(c, m, op, h))
            && (h in r.lookups ==> !Dry(r.lookups[h].candidates, r.lookups[h].queried, r.lookups[h].pending))
  {
    hide ShouldFinish, Others, Done, Dry, Moves, Finish, Take;
    var lk, table := m.lookups[h], op.env.closest(h, 0);
    var merged := Merge(c.sort, c.self, lk.(pending := lk.pending - {op.txn}), op.nodes);
    FinishTest(c, merged, table);
    SameDone(c, lk, merged, table);
    var f := ShouldFinish(c, merged, table);
    if f.0 {
      FinishMoves(m, h, f.1, HeardIn(c, m, op, h));
      MovesEnds(m, Finish(Put(m, h, f.1), h), h, HeardIn(c, m, op, h));
    } else {
      PutMoves(m, h, f.1, HeardIn(c, m, op, h));
    }
  }

  lemma SameDone(c: Config, lk: Lookup, merged: Lookup, table: seq<Entry>)
    requires lk.target == merged.target && lk.queried == merged.queried
    ensures forall candidates, waiting :: Done(c, lk, candidates, waiting, table) == Done(c, merged, candidates, waiting, table)
  {
  }

  lemma ResponseMoves(c: Config, m: Manager, op: Op, h: InfoHash)
    requires h in m.lookups && Answers(m, op, h)
    ensures Moves(m, Apply(c, m, op), h, HeardIn(c, m, op, h), Completes(c, m, op, h))
  {
    hide Absorb, Advance, Moves, HeardIn, Completes, Dry;
    AbsorbMoves(c, m, op, h);
    var m1 := Absorb(c, m, h, op.txn, op.nodes, op.env);
    var heard, ends := HeardIn(c, m, op, h), Completes(c, m, op, h);
    if ends {
      MovesEnds(m, m1, h, heard);
      Unbound(m, m1, m1.pending - {op.txn}, h, heard, ends);
    } else {
      MovesGoesOn(m, m1, h, heard);
      QuietAdvance(c, m1, h, op.env, 1);
      var m2 := Advance(c, m1, h, op.env, 1).m;
      MovesThen(m, m1, m2, h, heard);
      Unbound(m, m2, m2.pending - {op.txn}, h, heard, ends);
    }
  }

  /** Moves does not speak of bindings. */
  lemma Unbound(m: Manager, r: Manager, pending: map<Txn, Binding>, h: InfoHash, heard: multiset<Entry>, ends: bool)
    requires Moves(m, r, h, heard, ends)
    ensures Moves(m, r.(pending := pending), h, heard, ends)
  {
  }

  // ---------------------------------------------------------------------------
  // Expiry
  // ---------------------------------------------------------------------------

  /** expire_pending_lookups drops exactly the bindings of 30 seconds and older, and each of them from
      the pending list of its lookup. */
  lemma ExpiryOfBindings(m: Manager, now: int)
    ensures var r := ExpirePending(m, now);
            && (forall x :: x in r.pending <==> x in m.pending && now - m.pending[x].at < 30 * 1000)
            && (forall x :: x in r.pending ==> r.pending[x] == m.pending[x])
            && r.lookups.Keys == m.lookups.Keys && r.completed == m.completed
            && (forall h :: h in m.lookups ==> r.lookups[h] == m.lookups[h].(pending := Waiting(m, h, now)))
  {
    var r := ExpirePending(m, now);
    forall h | h in m.lookups
      ensures r.lookups[h] == m.lookups[h].(pending := Waiting(m, h, now))
    {
      assert r.lookups[h].pending == Waiting(m, h, now);
    }
  }

  /** expire_active_lookups drops exactly the lookups of five minutes and older, and exactly the
      bindings of the transactions they listed. */
  lemma ExpiryOfLookups(m: Manager, now: int)
    ensures var r := ExpireActive(m, now);
            && (forall h :: h in r.lookups <==> h in m.lookups && now - m.lookups[h].started < 5 * 60 * 1000)
            && (forall h :: h in r.lookups ==> r.lookups[h] == m.lookups[h])
            && (forall x :: x in r.pending <==>
                  x in m.pending && forall h :: h in m.lookups && x in m.lookups[h].pending ==> h in r.lookups)
            && (forall x :: x in r.pending ==> r.pending[x] == m.pending[x])
            && r.completed == m.completed
  {
  }

  // ---------------------------------------------------------------------------
  // Every operation
  // ---------------------------------------------------------------------------

  ghost predicate Targets(m: Manager) {
    forall h :: h in m.lookups ==> m.lookups[h].target == h
  }

  /** What an operation does to the lookup of a hash: it goes on unless it completes or is too old, a
      completed one is recorded, and what it learns is what it hears. */
  ghost predicate Heeds(c: Config, m: Manager, r: Manager, op: Op, h: InfoHash) {
    && (h in r.lookups <==> Begins(c, m, op, h) || (h in m.lookups && !Completes(c, m, op, h) && !Outlives(m, op, h)))
    && (h in r.lookups && Begins(c, m, op, h) ==>
          r.lookups[h].target == h && r.lookups[h].learned == multiset(op.env.closest(h, 0)))
    && (h in r.lookups && !Begins(c, m, op, h) ==> Hears(m.lookups[h], r.lookups[h], HeardIn(c, m, op, h)))
    && m.completed <= r.completed
    && (forall i :: |m.completed| <= i < |r.completed| && r.completed[i].target == h ==>
          h in m.lookups && Completes(c, m, op, h) && Hears(m.lookups[h], r.completed[i], HeardIn(c, m, op, h)))
    && (h in m.lookups && Completes(c, m, op, h) ==>
          exists i :: |m.completed| <= i < |r.completed| && r.completed[i].target == h)
  }

  lemma ResponseHeeds(c: Config, m: Manager, op: Op, h: InfoHash)
    requires Targets(m) && op.Response?
    ensures Heeds(c, m, Apply(c, m, op), op, h)
  {
    hide OnResponse, HeardIn, Completes, Moves;
    var r := Apply(c, m, op);
    NotItsAnswer(c, m, op, h);
    if op.txn in m.pending && m.pending[op.txn].hash in m.lookups {
      var g := m.pending[op.txn].hash;
      ResponseMoves(c, m, op, g);
      MovesHeeds(c, m, r, op, g, h);
    } else {
      Unanswered(c, m, op);
      if h in m.lookups {
        HearsNothing(m.lookups[h]);
      }
    }
  }

  lemma HearsNothing(lk: Lookup)
    ensures Hears(lk, lk, multiset{})
  {
  }

  lemma Unanswered(c: Config, m: Manager, op: Op)
    requires op.Response? && (op.txn in m.pending ==> m.pending[op.txn].hash !in m.lookups)
    ensures var r := Apply(c, m, op); r.lookups == m.lookups && r.completed == m.completed
  {
  }

  lemma NotItsAnswer(c: Config, m: Manager, op: Op, h: InfoHash)
    requires op.Response?
    ensures !Begins(c, m, op, h)
    ensures h in m.lookups ==> !Outlives(m, op, h)
    ensures h in m.lookups && !Answers(m, op, h) ==> HeardIn(c, m, op, h) == multiset{} && !Completes(c, m, op, h)
  {
  }

  lemma MovesHeeds(c: Config, m: Manager, r: Manager, op: Op, g: InfoHash, h: InfoHash)
    requires Targets(m) && op.Response? && g in m.lookups && Answers(m, op, g)
    requires Moves(m, r, g, HeardIn(c, m, op, g), Completes(c, m, op, g))
    ensures Heeds(c, m, r, op, h)
  {
    NotItsAnswer(c, m, op, h);
    hide HeardIn, Completes, Begins, Outlives;
    var heard := HeardIn(c, m, op, g);
    if Completes(c, m, op, g) {
      var lk :| r.completed == m.completed + [lk] && Hears(m.lookups[g], lk, heard);
      assert r.completed[|m.completed|] == lk;
    }
    if h != g && h in m.lookups {
      assert Hears(m.lookups[h], r.lookups[h], multiset{});
    }
  }

  lemma ExpireHeeds(c: Config, m: Manager, op: Op, h: InfoHash)
    requires op.ExpireTxns? || op.ExpireLookups?
    ensures Heeds(c, m, Apply(c, m, op), op, h)
  {
    hide ExpirePending, ExpireActive;
    ExpiryOfBindings(m, op.now);
    ExpiryOfLookups(m, op.now);
    if h in m.lookups {
      HearsNothing(m.lookups[h]);
    }
  }

  // ---------------------------------------------------------------------------
  // Ticks
  // ---------------------------------------------------------------------------

  /** What advancing the lookups of `order` in turn does to lookup h. */
  ghost predicate Visited(c: Config, m: Manager, r: Manager, order: seq<InfoHash>, env: Env, h: InfoHash)
    requires h in m.lookups
  {
    var lk, table := m.lookups[h], env.closest(h, 0);
    var heard := multiset(Others(if Dry(lk.candidates, lk.queried, lk.pending) then table else [], c.self));
    var ends := h in order && Done(c, lk, lk.candidates, lk.pending, table);
    && (h in r.lookups <==> !ends)
    && (h !in order ==> r.lookups[h] == lk)
    && (h in order && !ends ==> Hears(lk, r.lookups[h], heard) && r.lookups[h].pending != {})
    && (forall i :: |m.completed| <= i < |r.completed| && r.completed[i].target == h ==> ends && Hears(lk, r.completed[i], heard))
    && (ends ==> exists i :: |m.completed| <= i < |r.completed| && r.completed[i].target == h)
  }

  ghost predicate VisitedAll(c: Config, m: Manager, r: Manager, order: seq<InfoHash>, env: Env) {
    && m.completed <= r.completed && r.lookups.Keys <= m.lookups.Keys
    && (forall i :: |m.completed| <= i < |r.completed| ==> r.completed[i].target in m.lookups)
    && forall h :: h in m.lookups ==> Visited(c, m, r, order, env, h)
  }

  lemma {:induction false} EachVisited(c: Config, m: Manager, order: seq<InfoHash>, env: Env)
    requires Targets(m)
    ensures VisitedAll(c, m, AdvanceEach(c, m, order, env), order, env)
  {
    hide Advance, Visited, Moves;
    if order == [] {
      forall h | h in m.lookups
        ensures Visited(c, m, m, [], env, h)
      {
        NotVisited(c, m, env, h);
      }
    } else {
      var n := |order| - 1;
      var before, g := order[..n], order[n];
      EachVisited(c, m, before, env);
      SplitEnd(order);
      var m1 := AdvanceEach(c, m, before, env);
      var r := AdvanceEach(c, m, order, env);
      if g in m1.lookups {
        AdvanceHears(c, m1, g, env, 0);
        OneVisitMore(c, m, m1, r, before, env, g);
      } else {
        AdvanceMissing(c, m1, g, env, 0);
        forall h | h in m.lookups
          ensures Visited(c, m, r, before + [g], env, h)
        {
          VisitMissed(c, m, m1, before, env, g, h);
        }
      }
    }
  }

  lemma NotVisited(c: Config, m: Manager, env: Env, h: InfoHash)
    requires h in m.lookups
    ensures Visited(c, m, m, [], env, h)
  {
  }

  lemma VisitMissed(c: Config, m: Manager, r: Manager, before: seq<InfoHash>, env: Env, g: InfoHash, h: InfoHash)
    requires h in m.lookups && Visited(c, m, r, before, env, h) && g !in r.lookups
    ensures Visited(c, m, r, before + [g], env, h)
  {
    hide Done, Dry, Others;
  }

  /** The visit of lookup g, live in m1, after those of `before`. */
  lemma OneVisitMore(c: Config, m: Manager, m1: Manager, r: Manager, before: seq<InfoHash>, env: Env, g: InfoHash)
    requires Targets(m) && VisitedAll(c, m, m1, before, env) && g in m1.lookups
    requires var lk, table := m1.lookups[g], env.closest(g, 0);
             && Moves(m1, r, g, multiset(Others(if Dry(lk.candidates, lk.queried, lk.pending) then table else [], c.self)),
                      Done(c, lk, lk.candidates, lk.pending, table))
             && (g in r.lookups ==> r.lookups[g].pending != {})
    ensures VisitedAll(c, m, r, before + [g], env)
  {
    hide Done, Dry, Others, Visited;
    var lk, table := m1.lookups[g], env.closest(g, 0);
    var heard := multiset(Others(if Dry(lk.candidates, lk.queried, lk.pending) then table else [], c.self));
    var ends := Done(c, lk, lk.candidates, lk.pending, table);
    StillItself(c, m, m1, before, env, g);
    assert m1.completed <= r.completed;
    forall i | |m1.completed| <= i < |r.completed|
      ensures r.completed[i].target == g
    {
      assert ends;
    }
    assert forall i :: 0 <= i < |m1.completed| ==> r.completed[i] == m1.completed[i];
    forall h | h in m.lookups
      ensures Visited(c, m, r, before + [g], env, h)
    {
      if h == g {
        VisitItself(c, m, m1, r, before, env, g);
      } else {
        VisitOther(c, m, m1, r, before, env, g, h);
      }
    }
  }

  lemma StillItself(c: Config, m: Manager, m1: Manager, before: seq<InfoHash>, env: Env, g: InfoHash)
    requires Targets(m) && g in m.lookups && g in m1.lookups && Visited(c, m, m1, before, env, g)
    ensures m1.lookups[g].target == g
    ensures g !in before ==> m1.lookups[g] == m.lookups[g]
    ensures g in before ==> m1.lookups[g].pending != {}
  {
    hide Done, Dry, Others;
  }

  lemma VisitOther(c: Config, m: Manager, m1: Manager, r: Manager, before: seq<InfoHash>, env: Env, g: InfoHash, h: InfoHash)
    requires h in m.lookups && h != g && Visited(c, m, m1, before, env, h)
    requires (h in r.lookups <==> h in m1.lookups) && (h in m1.lookups ==> r.lookups[h] == m1.lookups[h])
    requires m.completed <= m1.completed <= r.completed
    requires forall i :: |m1.completed| <= i < |r.completed| ==> r.completed[i].target == g
    ensures Visited(c, m, r, before + [g], env, h)
  {
    hide Done, Dry, Others;
    assert forall i :: 0 <= i < |m1.completed| ==> r.completed[i] == m1.completed[i];
  }

  lemma VisitItself(c: Config, m: Manager, m1: Manager, r: Manager, before: seq<InfoHash>, env: Env, g: InfoHash)
    requires Targets(m) && g in m.lookups && g in m1.lookups && Visited(c, m, m1, before, env, g)
    requires m.completed <= m1.completed <= r.completed
    requires var lk, table := m1.lookups[g], env.closest(g, 0);
             && Moves(m1, r, g, multiset(Others(if Dry(lk.candidates, lk.queried, lk.pending) then table else [], c.self)),
                      Done(c, lk, lk.candidates, lk.pending, table))
             && (g in r.lookups ==> r.lookups[g].pending != {})
    ensures Visited(c, m, r, before + [g], env, g)
  {
    StillItself(c, m, m1, before, env, g);
    NothingHeard(c.self);
    hide With, Asked, Others;
    assert forall i :: 0 <= i < |m1.completed| ==> r.completed[i] == m1.completed[i];
    var lk, table := m1.lookups[g], env.closest(g, 0);
    var heard := multiset(Others(if Dry(lk.candidates, lk.queried, lk.pending) then table else [], c.self));
    if g in before {
      assert heard == multiset{} && !Done(c, lk, lk.candidates, lk.pending, table);
      assert r.lookups[g].learned == lk.learned;
    } else if Done(c, lk, lk.candidates, lk.pending, table) {
      var last :| r.completed == m1.completed + [last] && Hears(lk, last, heard);
      assert r.completed[|m1.completed|] == last;
    }
  }

  lemma TickHeeds(c: Config, m: Manager, op: Op, h: InfoHash)
    requires Targets(m) && op.TickAll?
    ensures Heeds(c, m, Apply(c, m, op), op, h)
  {
    hide ExpirePending, AdvanceEach, Visited;
    var m1 := ExpirePending(m, op.env.now);
    ExpiryOfBindings(m, op.env.now);
    EachVisited(c, m1, op.order, op.env);
    var r := AdvanceEach(c, m1, op.order, op.env);
    if h in m.lookups {
      VisitedHeeds(c, m, m1, r, op, h);
    } else {
      hide Completes, HeardIn;
    }
  }

  lemma VisitedHeeds(c: Config, m: Manager, m1: Manager, r: Manager, op: Op, h: InfoHash)
    requires op.TickAll? && h in m.lookups && h in m1.lookups && Visited(c, m1, r, op.order, op.env, h)
    requires m1.lookups[h] == m.lookups[h].(pending := Waiting(m, h, op.env.now))
    requires m1.completed == m.completed && m1.completed <= r.completed
    ensures Heeds(c, m, r, op, h)
  {
    TickMeans(c, m, m1, op, h);
    hide Done, Dry, Others, HeardIn, Completes, Begins, Outlives, Waiting;
    HearsNothing(m.lookups[h]);
  }

  lemma TickMeans(c: Config, m: Manager, m1: Manager, op: Op, h: InfoHash)
    requires op.TickAll? && h in m.lookups && h in m1.lookups
    requires m1.lookups[h] == m.lookups[h].(pending := Waiting(m, h, op.env.now))
    ensures !Begins(c, m, op, h) && !Outlives(m, op, h)
    ensures var lk, table := m1.lookups[h], op.env.closest(h, 0);
            var heard := multiset(Others(if Dry(lk.candidates, lk.queried, lk.pending) then table else [], c.self));
            && HeardIn(c, m, op, h) == (if h in op.order then heard else multiset{})
            && Completes(c, m, op, h) == (h in op.order && Done(c, lk, lk.candidates, lk.pending, table))
  {
    SameDone(c, m.lookups[h], m1.lookups[h], op.env.closest(h, 0));
    hide Done, Dry, Others, Waiting;
  }

  // ---------------------------------------------------------------------------
  // Starts
  // ---------------------------------------------------------------------------

  /** Both expiries of a start: the young lookups stay, without the transactions that timed out. */
  ghost predicate Aged(m: Manager, r: Manager, now: int) {
    && r.completed == m.completed
    && (forall h :: h in r.lookups <==> h in m.lookups && !TooOld(m, h, now))
    && (forall h :: h in r.lookups ==> r.lookups[h] == m.lookups[h].(pending := Waiting(m, h, now)))
  }

  lemma BothExpiries(m: Manager, now: int)
    ensures Aged(m, ExpireActive(ExpirePending(m, now), now), now)
  {
    hide ExpirePending, ExpireActive;
    ExpiryOfBindings(m, now);
    ExpiryOfLookups(ExpirePending(m, now), now);
  }

  /** The visit of an aged lookup that is waiting for nobody. */
  lemma RevisitMoves(c: Config, m: Manager, h: InfoHash, env: Env)
    requires h in m.lookups && m.lookups[h].pending == {}
    ensures var lk, table := m.lookups[h], env.closest(h, 1);
            var f := ShouldFinish(c, lk, table);
            var heard := multiset(Others(if Dry(lk.candidates, lk.queried, {}) then table else [], c.self));
            && f.0 == Done(c, lk, lk.candidates, {}, table)
            && Moves(m, if f.0 then Finish(Put(m, h, f.1), h) else Advance(c, Put(m, h, f.1), h, env, 2).m, h, heard, f.0)
  {
    hide ShouldFinish, Others, Done, Dry, Moves, Finish, Advance;
    var lk, table := m.lookups[h], env.closest(h, 1);
    var f := ShouldFinish(c, lk, table);
    var heard := multiset(Others(if Dry(lk.candidates, lk.queried, {}) then table else [], c.self));
    FinishTest(c, lk, table);
    if f.0 {
      FinishMoves(m, h, f.1, heard);
    } else {
      PutMoves(m, h, f.1, heard);
      QuietAdvance(c, Put(m, h, f.1), h, env, 2);
      MovesThen(m, Put(m, h, f.1), Advance(c, Put(m, h, f.1), h, env, 2).m, h, heard);
    }
  }

  /** A new lookup has candidates it has not asked, so its first advance only sends. */
  lemma FreshMoves(c: Config, m: Manager, h: InfoHash, seeds: seq<Entry>, env: Env)
    requires h !in m.lookups && seeds != []
    ensures var r := Advance(c, Put(m, h, NewLookup(h, seeds, env.now)), h, env, 4).m;
            && r.completed == m.completed
            && (forall g :: g in r.lookups <==> g in m.lookups || g == h)
            && (forall g :: g in m.lookups ==> r.lookups[g] == m.lookups[g])
            && r.lookups[h].target == h && r.lookups[h].started == env.now && r.lookups[h].learned == multiset(seeds)
            && r.lookups[h].pending != {}
  {
    hide Advance;
    var lk := NewLookup(h, seeds, env.now);
    assert lk.candidates[0].addr !in lk.queried;
    QuietAdvance(c, Put(m, h, lk), h, env, 4);
  }

  /** A start in three stages: expiry, a visit of the lookup if there is one, and a new lookup if
      there is none by then. */
  lemma StartStages(c: Config, m: Manager, op: Op) returns (m1: Manager, m2: Manager)
    requires op.Start? && op.env.closest(op.hash, 0) != []
    ensures Aged(m, m1, op.env.now)
    ensures op.hash in m1.lookups ==>
              op.hash in m.lookups && Moves(m1, m2, op.hash, HeardIn(c, m, op, op.hash), Completes(c, m, op, op.hash))
    ensures op.hash !in m1.lookups ==> m2 == m1
    ensures Apply(c, m, op) == if op.hash in m2.lookups then m2
              else Advance(c, Put(m2, op.hash, NewLookup(op.hash, op.env.closest(op.hash, 0), op.env.now)), op.hash, op.env, 4).m
  {
    hide ExpirePending, ExpireActive, ShouldFinish, Others, Done, Dry, Moves, Finish, Advance;
    var h, env := op.hash, op.env;
    m1 := ExpireActive(ExpirePending(m, env.now), env.now);
    BothExpiries(m, env.now);
    m2 := m1;
    if h in m1.lookups {
      var lk, table := m1.lookups[h], env.closest(h, 1);
      SameDone(c, m.lookups[h], lk, table);
      if lk.pending != {} {
        StaysPut(c, m, m1, op);
      } else {
        RevisitMoves(c, m1, h, env);
        var f := ShouldFinish(c, lk, table);
        m2 := if f.0 then Finish(Put(m1, h, f.1), h) else Advance(c, Put(m1, h, f.1), h, env, 2).m;
        if f.0 {
          MovesEnds(m1, m2, h, HeardIn(c, m, op, h));
        } else {
          MovesGoesOn(m1, m2, h, HeardIn(c, m, op, h));
        }
      }
    }
  }

  lemma StaysPut(c: Config, m: Manager, m1: Manager, op: Op)
    requires op.Start? && Aged(m, m1, op.env.now) && op.hash in m1.lookups && m1.lookups[op.hash].pending != {}
    ensures Moves(m1, m1, op.hash, HeardIn(c, m, op, op.hash), Completes(c, m, op, op.hash))
  {
    NothingHeard(c.self);
    hide Others, With;
    HearsNothing(m1.lookups[op.hash]);
  }

  lemma StartHeeds(c: Config, m: Manager, op: Op, h: InfoHash)
    requires Targets(m) && op.Start?
    ensures Heeds(c, m, Apply(c, m, op), op, h)
  {
    hide StartOrAdvance, Advance, HeardIn, Completes, Moves;
    var r := Apply(c, m, op);
    NotItsStart(c, m, op, h);
    if op.env.closest(op.hash, 0) == [] {
      NoSeeds(c, m, op);
      if h in m.lookups {
        HearsNothing(m.lookups[h]);
      }
    } else {
      var m1, m2 := StartStages(c, m, op);
      if op.hash !in m2.lookups {
        FreshMoves(c, m2, op.hash, op.env.closest(op.hash, 0), op.env);
      }
      if h == op.hash {
        StartedHeeds(c, m, m1, m2, r, op);
      } else {
        OtherHeeds(c, m, m1, m2, r, op, h);
      }
    }
  }

  lemma NoSeeds(c: Config, m: Manager, op: Op)
    requires op.Start? && op.env.closest(op.hash, 0) == []
    ensures Apply(c, m, op) == m
  {
  }

  lemma NotItsStart(c: Config, m: Manager, op: Op, h: InfoHash)
    requires op.Start?
    ensures h in m.lookups && (op.hash != h || op.env.closest(h, 0) == []) ==>
              HeardIn(c, m, op, h) == multiset{} && !Completes(c, m, op, h)
    ensures h in m.lookups && TooOld(m, h, op.env.now) ==> !Completes(c, m, op, h)
  {
  }

  /** Everybody in r but perhaps the started lookup comes from m2. */
  predicate Extends(m2: Manager, r: Manager, op: Op)
    requires op.Start?
  {
    && r.completed == m2.completed
    && (forall g :: g in m2.lookups ==> g in r.lookups && r.lookups[g] == m2.lookups[g])
    && (forall g :: g in r.lookups ==> g in m2.lookups || g == op.hash)
    && op.hash in r.lookups
    && (op.hash !in m2.lookups ==>
          r.lookups[op.hash].target == op.hash && r.lookups[op.hash].learned == multiset(op.env.closest(op.hash, 0)))
  }

  lemma StartedHeeds(c: Config, m: Manager, m1: Manager, m2: Manager, r: Manager, op: Op)
    requires Targets(m) && op.Start? && op.env.closest(op.hash, 0) != [] && Aged(m, m1, op.env.now) && Extends(m2, r, op)
    requires op.hash in m1.lookups ==>
               op.hash in m.lookups && Moves(m1, m2, op.hash, HeardIn(c, m, op, op.hash), Completes(c, m, op, op.hash))
    requires op.hash !in m1.lookups ==> m2 == m1
    ensures Heeds(c, m, r, op, op.hash)
  {
    NotItsStart(c, m, op, op.hash);
    hide HeardIn, Completes;
    var h := op.hash;
    if h in m1.lookups && Completes(c, m, op, h) {
      var lk :| m2.completed == m1.completed + [lk] && Hears(m1.lookups[h], lk, HeardIn(c, m, op, h));
      assert r.completed[|m.completed|] == lk;
    }
  }

  lemma OtherHeeds(c: Config, m: Manager, m1: Manager, m2: Manager, r: Manager, op: Op, h: InfoHash)
    requires Targets(m) && op.Start? && op.env.closest(op.hash, 0) != [] && Aged(m, m1, op.env.now) && Extends(m2, r, op)
    requires op.hash in m1.lookups ==>
               op.hash in m.lookups && Moves(m1, m2, op.hash, HeardIn(c, m, op, op.hash), Completes(c, m, op, op.hash))
    requires op.hash !in m1.lookups ==> m2 == m1
    requires h != op.hash
    ensures Heeds(c, m, r, op, h)
  {
    NotItsStart(c, m, op, h);
    hide HeardIn, Completes;
    if op.hash in m1.lookups && Completes(c, m, op, op.hash) {
      var lk :| m2.completed == m1.completed + [lk] && Hears(m1.lookups[op.hash], lk, HeardIn(c, m, op, op.hash));
      assert r.completed[|m.completed|] == lk && lk.target == op.hash;
    }
    if h in m1.lookups {
      HearsNothing(m.lookups[h]);
    }
  }

  // ---------------------------------------------------------------------------
  // Whole runs
  // ---------------------------------------------------------------------------

  /** Every operation, in any state whose lookups are filed under their targets. */
  lemma ApplyHeeds(c: Config, m: Manager, op: Op, h: InfoHash)
    requires Targets(m)
    ensures Heeds(c, m, Apply(c, m, op), op, h)
  {
    hide Heeds, Apply;
    match op
    case Start(_, _) => StartHeeds(c, m, op, h);
    case Response(_, _, _) => ResponseHeeds(c, m, op, h);
    case TickAll(_, _) => TickHeeds(c, m, op, h);
    case ExpireTxns(_) => ExpireHeeds(c, m, op, h);
    case ExpireLookups(_) => ExpireHeeds(c, m, op, h);
  }

  lemma {:induction false} RunTargets(c: Config, ops: seq<Op>)
    ensures Targets(Run(c, ops))
  {
    hide Apply, HeardIn, Completes;
    if ops != [] {
      var n := |ops| - 1;
      RunTargets(c, ops[..n]);
      forall h | h in Run(c, ops).lookups
        ensures Run(c, ops).lookups[h].target == h
      {
        ApplyHeeds(c, Run(c, ops[..n]), ops[n], h);
      }
    }
  }

  lemma RunHeeds(c: Config, ops: seq<Op>, h: InfoHash)
    requires ops != []
    ensures Heeds(c, Run(c, ops[..|ops| - 1]), Run(c, ops), ops[|ops| - 1], h)
  {
    hide Heeds, Apply;
    var n := |ops| - 1;
    RunTargets(c, ops[..n]);
    ApplyHeeds(c, Run(c, ops[..n]), ops[n], h);
  }

  /** In every run a live lookup has learned, with multiplicity, exactly what it heard since its start. */
  lemma {:induction false} LearnedIsHeard(c: Config, ops: seq<Op>, h: InfoHash)
    requires h in Run(c, ops).lookups
    ensures Run(c, ops).lookups[h].learned == Heard(c, ops, h)
  {
    hide Apply, HeardIn, Completes, Outlives;
    if ops != [] {
      var n := |ops| - 1;
      RunHeeds(c, ops, h);
      hide Run;
      if !Begins(c, Run(c, ops[..n]), ops[n], h) {
        LearnedIsHeard(c, ops[..n], h);
      }
    }
  }

  /** A lookup that completes in the last operation is recorded with what it heard until then and in
      that operation; earlier records stay. */
  lemma CompletedIsHeard(c: Config, ops: seq<Op>, i: nat)
    requires ops != []
    ensures var m, op, r := Run(c, ops[..|ops| - 1]), ops[|ops| - 1], Run(c, ops);
            && m.completed <= r.completed
            && (|m.completed| <= i < |r.completed| ==>
                  var h := r.completed[i].target;
                  && h in m.lookups && Completes(c, m, op, h)
                  && r.completed[i].learned == Heard(c, ops[..|ops| - 1], h) + HeardIn(c, m, op, h))
            && (forall h :: h in m.lookups && Completes(c, m, op, h) ==>
                  exists j :: |m.completed| <= j < |r.completed| && r.completed[j].target == h)
  {
    hide Apply, HeardIn, Completes, Outlives, Run, Heard;
    var n := |ops| - 1;
    var m, r := Run(c, ops[..n]), Run(c, ops);
    RunHeeds(c, ops, c.self);
    if |m.completed| <= i < |r.completed| {
      RunHeeds(c, ops, r.completed[i].target);
      LearnedIsHeard(c, ops[..n], r.completed[i].target);
    }
    forall h | h in m.lookups && Completes(c, m, ops[n], h)
      ensures exists j :: |m.completed| <= j < |r.completed| && r.completed[j].target == h
    {
      RunHeeds(c, ops, h);
    }
  }

  /** A hash has a lookup after an operation exactly if the operation started one, or it had one
      before that neither ran dry for good nor grew too old. */
  lemma LookupsEndExactly(c: Config, ops: seq<Op>, h: InfoHash)
    requires ops != []
    ensures var m, op := Run(c, ops[..|ops| - 1]), ops[|ops| - 1];
            h in Run(c, ops).lookups
            <==> Begins(c, m, op, h) || (h in m.lookups && !Completes(c, m, op, h) && !Outlives(m, op, h))
  {
    hide Apply, HeardIn, Completes, Outlives, Begins, Run;
    RunHeeds(c, ops, h);
  }
}
