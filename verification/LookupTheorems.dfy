/** What the lookup manager keeps over every run of its operations. */
module LookupTheorems {
  import opened Common
  import opened NodeIds
  import opened Nearest
  import opened Lookup
  import opened LookupManager
  import Routing

  // ---------------------------------------------------------------------------
  // The invariant
  // ---------------------------------------------------------------------------

  ghost predicate LookupsOk(m: Manager) {
    forall h :: h in m.lookups ==> LookupOk(m.lookups[h]) && m.lookups[h].target == h
  }

  /** Every binding, except those being answered, names a live lookup that lists it as pending. */
  ghost predicate Live(m: Manager, skip: set<Txn>) {
    forall x :: x in m.pending && x !in skip ==>
      m.pending[x].hash in m.lookups && x in m.lookups[m.pending[x].hash].pending
  }

  /** Every pending transaction is bound to its own lookup. */
  ghost predicate Exact(m: Manager, skip: set<Txn>) {
    && skip <= m.pending.Keys
    && forall h, x :: h in m.lookups && x in m.lookups[h].pending ==>
         x !in skip && x in m.pending && m.pending[x].hash == h
  }

  ghost predicate History(m: Manager) {
    forall i :: 0 <= i < |m.completed| ==> Finished(m.completed[i])
  }

  /** `skip` is the transaction being answered, if any. */
  ghost predicate Ok(m: Manager, skip: set<Txn>) {
    LookupsOk(m) && Live(m, skip) && History(m) && (m.collided || Exact(m, skip))
  }

  // ---------------------------------------------------------------------------
  // Steps
  // ---------------------------------------------------------------------------

  lemma PutOk(m: Manager, h: InfoHash, lk: Lookup, skip: set<Txn>)
    requires Ok(m, skip) && h in m.lookups && LookupOk(lk) && lk.target == h && lk.pending == m.lookups[h].pending
    ensures Ok(Put(m, h, lk), skip)
  {
    hide LookupOk, Finished;
  }

  lemma FinishOk(m: Manager, h: InfoHash, skip: set<Txn>)
    requires Ok(m, skip) && h in m.lookups && m.lookups[h].pending == {} && AllQueried(m.lookups[h])
    ensures Ok(Finish(m, h), skip)
    ensures Finish(m, h).pending == m.pending && Finish(m, h).lookups == m.lookups - {h}
    ensures Finish(m, h).collided == m.collided
  {
    hide LookupOk, Finished, AllQueried;
    FinishedLookup(m.lookups[h]);
    var r := Finish(m, h);
    assert r.pending == m.pending;
    forall i | 0 <= i < |r.completed|
      ensures Finished(r.completed[i])
    {
      if i < |m.completed| {
        assert Finished(m.completed[i]);
      }
    }
  }

  lemma ShouldFinishOk(c: Config, lk: Lookup, closest: seq<Entry>)
    requires SortsByDistance(c.sort) && LookupOk(lk)
    ensures var r := ShouldFinish(c, lk, closest);
            && LookupOk(r.1) && r.1.pending == lk.pending && r.1.target == lk.target
            && (r.0 ==> r.1.pending == {} && AllQueried(r.1))
            && (!r.0 ==> r.1.pending != {} || !AllQueried(r.1))
  {
    hide LookupOk, Merge, SortsByDistance;
    if closest != [] {
      MergeOk(c.sort, c.self, lk, closest);
    }
  }

  lemma SendOk(m: Manager, h: InfoHash, txn: Txn, now: int, skip: set<Txn>)
    requires Ok(m, skip) && h in m.lookups && |m.lookups[h].pending| < LOOKUP_ALPHA
    ensures Ok(Send(m, h, txn, now), skip)
    ensures 0 < |Send(m, h, txn, now).lookups[h].pending| <= |m.lookups[h].pending| + 1
    ensures m.collided ==> Send(m, h, txn, now).collided
  {
    hide NearestOf, Finished, SetOf, NoDuplicates;
    var r := Send(m, h, txn, now);
    assert txn in r.lookups[h].pending;
    assert |r.lookups[h].pending| <= |m.lookups[h].pending| + 1;
    assert LookupOk(r.lookups[h]);
    hide LookupOk;
    assert Live(r, skip);
    if !r.collided {
      assert Exact(r, skip);
    }
  }

  lemma {:induction false} SendAllOk(m: Manager, h: InfoHash, count: nat, env: Env, skip: set<Txn>)
    requires Ok(m, skip) && h in m.lookups && |m.lookups[h].pending| + count <= LOOKUP_ALPHA
    ensures var r := SendAll(m, h, count, env);
            && Ok(r, skip)
            && |r.lookups[h].pending| <= |m.lookups[h].pending| + count
            && (count > 0 ==> 0 < |r.lookups[h].pending|)
            && (m.collided ==> r.collided)
            && r.lookups == m.lookups[h := r.lookups[h]]
  {
    hide Ok;
    if count > 0 {
      SendAllOk(m, h, count - 1, env, skip);
      SendOk(SendAll(m, h, count - 1, env), h, env.txn(h, count - 1), env.now, skip);
    }
  }

  /** Everything but lookup h is as it was. */
  ghost predicate OnlyTouches(m: Manager, r: Manager, h: InfoHash) {
    && (m.collided ==> r.collided)
    && r.lookups.Keys <= m.lookups.Keys + {h}
    && forall g :: g != h ==> (g in r.lookups <==> g in m.lookups) && (g in m.lookups ==> r.lookups[g] == m.lookups[g])
  }

  /** advance_lookup keeps the bookkeeping, and leaves the lookup finished or with between one and
      alpha queries in flight. */
  lemma AdvanceOk(c: Config, m: Manager, h: InfoHash, env: Env, call: nat, skip: set<Txn>)
    requires SortsByDistance(c.sort) && Ok(m, skip) && h in m.lookups
    ensures var r := Advance(c, m, h, env, call);
            && Ok(r.m, skip) && OnlyTouches(m, r.m, h)
            && (h in r.m.lookups ==> 1 <= |r.m.lookups[h].pending| <= LOOKUP_ALPHA)
            && (r.completed <==> h !in r.m.lookups)
            && (r.outbound != [] ==> h in r.m.lookups)
  {
    hide SortsByDistance, Ok, ShouldFinish, Select, SendAll, Finish, AllQueried, LookupOk;
    assert LookupOk(m.lookups[h]) && m.lookups[h].target == h by { OkLookup(m, h, skip); }
    ShouldFinishOk(c, m.lookups[h], env.closest(h, call));
    var first := ShouldFinish(c, m.lookups[h], env.closest(h, call));
    var m1 := Put(m, h, first.1);
    PutOk(m, h, first.1, skip);
    OkLookup(m1, h, skip);
    if first.0 {
      FinishOk(m1, h, skip);
    } else if |first.1.pending| < LOOKUP_ALPHA {
      var count := LOOKUP_ALPHA - |first.1.pending|;
      SelectOk(first.1, count);
      var selected := Select(first.1, count);
      PutOk(m1, h, selected.0, skip);
      SendAllOk(Put(m1, h, selected.0), h, |selected.1|, env, skip);
      if selected.1 == [] {
        var m2 := SendAll(Put(m1, h, selected.0), h, 0, env);
        assert m2 == Put(m1, h, selected.0) by { SendNothing(Put(m1, h, selected.0), h, env); }
        BusyLookupGoesOn(c, selected.0, env.closest(h, call + 1));
        assert Put(m2, h, selected.0) == m2;
      }
    }
  }

  lemma SendNothing(m: Manager, h: InfoHash, env: Env)
    requires h in m.lookups
    ensures SendAll(m, h, 0, env) == m
  {
  }

  lemma OkLookup(m: Manager, h: InfoHash, skip: set<Txn>)
    requires Ok(m, skip) && h in m.lookups
    ensures LookupOk(m.lookups[h]) && m.lookups[h].target == h && |m.lookups[h].pending| <= LOOKUP_ALPHA
  {
  }

  lemma BusyLookupGoesOn(c: Config, lk: Lookup, closest: seq<Entry>)
    requires lk.pending != {}
    ensures ShouldFinish(c, lk, closest) == (false, lk)
  {
  }

  lemma ShrinkPending(lk: Lookup, keep: set<Txn>)
    requires LookupOk(lk) && keep <= lk.pending
    ensures LookupOk(lk.(pending := keep))
  {
    hide NearestOf, SetOf, NoDuplicates;
    assert lk.pending == keep + (lk.pending - keep);
  }

  lemma ExpirePendingOk(m: Manager, now: int)
    requires Ok(m, {})
    ensures Ok(ExpirePending(m, now), {})
    ensures ExpirePending(m, now).lookups.Keys == m.lookups.Keys
  {
    hide LookupOk, Finished;
    var r := ExpirePending(m, now);
    forall h | h in r.lookups
      ensures LookupOk(r.lookups[h]) && r.lookups[h].target == h
    {
      assert r.lookups[h] == m.lookups[h].(pending := r.lookups[h].pending);
      ShrinkPending(m.lookups[h], r.lookups[h].pending);
    }
    assert Live(r, {});
    assert r.collided || Exact(r, {});
  }

  lemma ExpireActiveOk(m: Manager, now: int)
    requires Ok(m, {})
    ensures Ok(ExpireActive(m, now), {})
  {
    hide LookupOk, Finished;
    var r := ExpireActive(m, now);
    assert Live(r, {});
    assert r.collided || Exact(r, {});
  }

  /** The transaction is being answered: its lookup drops it, the map still binds it. */
  lemma AbsorbOk(c: Config, m: Manager, txn: Txn, nodes: seq<Entry>, env: Env)
    requires SortsByDistance(c.sort) && Ok(m, {}) && txn in m.pending && m.pending[txn].hash in m.lookups
    ensures var h := m.pending[txn].hash;
            var r := Absorb(c, m, h, txn, nodes, env);
            Ok(r, {txn}) && (m.collided ==> r.collided)
  {
    hide SortsByDistance, LookupOk, Finished, ShouldFinish, Merge, Finish, AllQueried;
    var h := m.pending[txn].hash;
    var lk := m.lookups[h].(pending := m.lookups[h].pending - {txn});
    ShrinkPending(m.lookups[h], lk.pending);
    var m0 := Put(m, h, lk);
    assert Live(m0, {txn});
    assert m0.collided || Exact(m0, {txn});
    assert Ok(m0, {txn});
    hide Ok;
    MergeOk(c.sort, c.self, lk, nodes);
    var merged := Merge(c.sort, c.self, lk, nodes);
    ShouldFinishOk(c, merged, env.closest(h, 0));
    var finish := ShouldFinish(c, merged, env.closest(h, 0));
    PutOk(m0, h, finish.1, {txn});
    assert Put(m0, h, finish.1) == Put(m, h, finish.1);
    if finish.0 {
      FinishOk(Put(m, h, finish.1), h, {txn});
    }
  }

  lemma ForgetOk(m: Manager, txn: Txn)
    requires Ok(m, {txn})
    ensures Ok(m.(pending := m.pending - {txn}), {})
  {
    hide LookupOk, Finished;
    var r := m.(pending := m.pending - {txn});
    assert Live(r, {});
    assert r.collided || Exact(r, {});
  }

  lemma OnResponseOk(c: Config, m: Manager, txn: Txn, nodes: seq<Entry>, env: Env)
    requires SortsByDistance(c.sort) && Ok(m, {})
    ensures Ok(OnResponse(c, m, txn, nodes, env).m, {})
  {
    hide SortsByDistance, Absorb, Advance;
    if txn in m.pending {
      var h := m.pending[txn].hash;
      assert h in m.lookups;
      hide Ok;
      AbsorbOk(c, m, txn, nodes, env);
      var m1 := Absorb(c, m, h, txn, nodes, env);
      ForgetOk(m1, txn);
      if h in m1.lookups {
        AdvanceOk(c, m1, h, env, 1, {txn});
        ForgetOk(Advance(c, m1, h, env, 1).m, txn);
      }
    }
  }

  lemma AddLookupOk(m: Manager, h: InfoHash, lk: Lookup)
    requires Ok(m, {}) && h !in m.lookups && LookupOk(lk) && lk.target == h && lk.pending == {}
    ensures Ok(Put(m, h, lk), {})
  {
    hide LookupOk, Finished;
    var r := Put(m, h, lk);
    assert Live(r, {});
    assert r.collided || Exact(r, {});
  }

  lemma StartOk(c: Config, m: Manager, h: InfoHash, env: Env)
    requires SortsByDistance(c.sort) && EnvOk(env) && Ok(m, {})
    ensures Ok(StartOrAdvance(c, m, h, env).m, {})
  {
    hide SortsByDistance, Ok, Advance, ExpirePending, ExpireActive, ShouldFinish, Finish, NewLookup, LookupOk, AllQueried,
         Seeds;
    var seeds := env.closest(h, 0);
    if seeds != [] {
      ExpirePendingOk(m, env.now);
      ExpireActiveOk(ExpirePending(m, env.now), env.now);
      var m1 := ExpireActive(ExpirePending(m, env.now), env.now);
      if h in m1.lookups && m1.lookups[h].pending == {} {
        OkLookup(m1, h, {});
        var finish := ShouldFinish(c, m1.lookups[h], env.closest(h, 1));
        ShouldFinishOk(c, m1.lookups[h], env.closest(h, 1));
        PutOk(m1, h, finish.1, {});
        if finish.0 {
          FinishOk(Put(m1, h, finish.1), h, {});
          FreshLookupOk(c, Finish(Put(m1, h, finish.1), h), h, seeds, env);
        } else {
          AdvanceOk(c, Put(m1, h, finish.1), h, env, 2, {});
          var a := Advance(c, Put(m1, h, finish.1), h, env, 2);
          FreshLookupOk(c, a.m, h, seeds, env);
        }
      } else {
        FreshLookupOk(c, m1, h, seeds, env);
      }
    }
  }

  lemma FreshLookupOk(c: Config, m: Manager, h: InfoHash, seeds: seq<Entry>, env: Env)
    requires SortsByDistance(c.sort) && Ok(m, {}) && Seeds(h, seeds)
    ensures h !in m.lookups ==> Ok(Advance(c, Put(m, h, NewLookup(h, seeds, env.now)), h, env, 4).m, {})
  {
    hide SortsByDistance, Ok, Advance, LookupOk, Seeds;
    if h !in m.lookups {
      NewLookupOk(h, seeds, env.now);
      AddLookupOk(m, h, NewLookup(h, seeds, env.now));
      AdvanceOk(c, Put(m, h, NewLookup(h, seeds, env.now)), h, env, 4, {});
    }
  }

  /** Between one and alpha queries are in flight for the lookup, if it is still there. */
  predicate InFlight(m: Manager, h: InfoHash) {
    h in m.lookups ==> 1 <= |m.lookups[h].pending| <= LOOKUP_ALPHA
  }

  lemma {:induction false} AdvanceEachOk(c: Config, m: Manager, hashes: seq<InfoHash>, env: Env)
    requires SortsByDistance(c.sort) && Ok(m, {})
    ensures var r := AdvanceEach(c, m, hashes, env);
            && Ok(r, {})
            && r.lookups.Keys <= m.lookups.Keys
            && forall h :: h in hashes ==> InFlight(r, h)
  {
    hide SortsByDistance, Ok, Advance;
    if hashes != [] {
      var n := |hashes| - 1;
      AdvanceEachOk(c, m, hashes[..n], env);
      var m1, g := AdvanceEach(c, m, hashes[..n], env), hashes[n];
      if g in m1.lookups {
        AdvanceOk(c, m1, g, env, 0, {});
      } else {
        AdvanceMissing(c, m1, g, env, 0);
      }
      var r := AdvanceEach(c, m, hashes, env);
      forall h | h in hashes
        ensures InFlight(r, h)
      {
        if h != g {
          assert h in hashes[..n];
          assert InFlight(m1, h);
        }
      }
    }
  }

  lemma AdvanceMissing(c: Config, m: Manager, h: InfoHash, env: Env, call: nat)
    requires h !in m.lookups
    ensures Advance(c, m, h, env, call).m == m
  {
  }

  lemma ApplyOk(c: Config, m: Manager, op: Op)
    requires SortsByDistance(c.sort) && OpOk(op) && Ok(m, {})
    ensures Ok(Apply(c, m, op), {})
  {
    hide SortsByDistance, Ok, StartOrAdvance, OnResponse, ExpirePending, ExpireActive, AdvanceEach, EnvOk;
    match op
    case Start(h, env) => StartOk(c, m, h, env);
    case Response(txn, nodes, env) => OnResponseOk(c, m, txn, nodes, env);
    case TickAll(order, env) =>
      ExpirePendingOk(m, env.now);
      AdvanceEachOk(c, ExpirePending(m, env.now), order, env);
    case ExpireTxns(now) => ExpirePendingOk(m, now);
    case ExpireLookups(now) => ExpireActiveOk(m, now);
  }

  lemma {:induction false} RunOk(c: Config, ops: seq<Op>)
    requires SortsByDistance(c.sort) && forall i :: 0 <= i < |ops| ==> OpOk(ops[i])
    ensures Ok(Run(c, ops), {})
  {
    hide SortsByDistance, OpOk, Apply;
    if ops != [] {
      var n := |ops| - 1;
      RunOk(c, ops[..n]);
      hide Ok;
      ApplyOk(c, Run(c, ops[..n]), ops[n]);
    }
  }

  // ---------------------------------------------------------------------------
  // Theorems
  // ---------------------------------------------------------------------------

  /** After every run, even when transaction ids collide, each binding names a live lookup that
      lists the transaction as pending. */
  lemma BindingsAreLive(c: Config, ops: seq<Op>)
    requires SortsByDistance(c.sort) && forall i :: 0 <= i < |ops| ==> OpOk(ops[i])
    ensures var m := Run(c, ops);
            forall x :: x in m.pending ==>
              m.pending[x].hash in m.lookups && x in m.lookups[m.pending[x].hash].pending
  {
    hide SortsByDistance, OpOk, Run;
    RunOk(c, ops);
  }

  /** If every drawn id was unbound when it was drawn, bindings and pending sets correspond one to
      one. */
  lemma BindingsAreExact(c: Config, ops: seq<Op>)
    requires SortsByDistance(c.sort) && forall i :: 0 <= i < |ops| ==> OpOk(ops[i])
    requires !Run(c, ops).collided
    ensures var m := Run(c, ops);
            forall h, x :: (h in m.lookups && x in m.lookups[h].pending) <==> (x in m.pending && m.pending[x].hash == h)
  {
    hide SortsByDistance, OpOk, Run, LookupsOk, History;
    RunOk(c, ops);
    LiveAndExact(Run(c, ops));
  }

  lemma LiveAndExact(m: Manager)
    requires Live(m, {}) && Exact(m, {})
    ensures forall h, x :: (h in m.lookups && x in m.lookups[h].pending) <==> (x in m.pending && m.pending[x].hash == h)
  {
  }

  /** After every tick each surviving lookup has between one and alpha queries in flight. */
  lemma TickNeverStalls(c: Config, ops: seq<Op>, order: seq<InfoHash>, env: Env)
    requires SortsByDistance(c.sort) && EnvOk(env) && forall i :: 0 <= i < |ops| ==> OpOk(ops[i])
    requires forall h :: h in Run(c, ops).lookups ==> h in order
    ensures var m := Tick(c, Run(c, ops), order, env);
            forall h :: h in m.lookups ==> 1 <= |m.lookups[h].pending| <= LOOKUP_ALPHA
  {
    hide SortsByDistance, OpOk, Run, Ok, AdvanceEach, ExpirePending;
    RunOk(c, ops);
    var m := Run(c, ops);
    ExpirePendingOk(m, env.now);
    AdvanceEachOk(c, ExpirePending(m, env.now), order, env);
    var r := Tick(c, m, order, env);
    forall h | h in r.lookups
      ensures InFlight(r, h)
    {
      assert h in m.lookups;
    }
  }

  /** advance_lookup without its second finish test. */
  function AdvanceOnce(c: Config, m: Manager, h: InfoHash, env: Env, call: nat): (r: Advanced) {
    if h !in m.lookups then Advanced(m, [], false)
    else
      var first := ShouldFinish(c, m.lookups[h], env.closest(h, call));
      var m1 := Put(m, h, first.1);
      if first.0 then Advanced(Finish(m1, h), [], true)
      else if |first.1.pending| >= LOOKUP_ALPHA then Advanced(m1, [], false)
      else
        var selected := Select(first.1, LOOKUP_ALPHA - |first.1.pending|);
        Advanced(SendAll(Put(m1, h, selected.0), h, |selected.1|, env), Messages(h, selected.1, env), false)
  }

  /** The second finish test of advance_lookup never fires, in any state at all: a lookup that passed
      the first and has nothing to send is waiting for answers. */
  lemma SecondFinishTestIsDead(c: Config, m: Manager, h: InfoHash, env: Env, call: nat)
    ensures Advance(c, m, h, env, call) == AdvanceOnce(c, m, h, env, call)
  {
  }

  /** Over a whole lookup the candidates are, with multiplicity, the eight nearest of everything it
      ever learned, and their distances are those of sorting it all at once; and it never asks the
      same address twice. */
  lemma LookupInvariant(c: Config, ops: seq<Op>, h: InfoHash)
    requires SortsByDistance(c.sort) && forall i :: 0 <= i < |ops| ==> OpOk(ops[i])
    requires h in Run(c, ops).lookups
    ensures var lk := Run(c, ops).lookups[h];
            && NearestOf(h, K, lk.learned, lk.candidates)
            && (forall batch :: Ordered(h, batch) && multiset(batch) == lk.learned ==>
                  && |lk.candidates| == |Take(K, batch)|
                  && forall i :: 0 <= i < |lk.candidates| ==> Away(h, lk.candidates[i]) == Away(h, Take(K, batch)[i]))
            && NoDuplicates(lk.asked) && SetOf(lk.asked) == lk.queried
            && |lk.pending| <= LOOKUP_ALPHA
  {
    hide SortsByDistance, OpOk, Run, Ok, Ordered, NearestOf, Away, Take;
    RunOk(c, ops);
    OkLookup(Run(c, ops), h, {});
    var lk := Run(c, ops).lookups[h];
    forall batch | Ordered(h, batch) && multiset(batch) == lk.learned
      ensures && |lk.candidates| == |Take(K, batch)|
              && forall i :: 0 <= i < |lk.candidates| ==> Away(h, lk.candidates[i]) == Away(h, Take(K, batch)[i])
    {
      SortedPrefix(h, K, batch);
      NearestDistances(h, K, lk.learned, lk.candidates, Take(K, batch));
    }
  }

  /** Every lookup that completed had nothing in flight, had asked all its candidates, and had asked
      a node at the minimum XOR distance it ever learned. */
  lemma CompletedLookups(c: Config, ops: seq<Op>, i: nat)
    requires SortsByDistance(c.sort) && forall j :: 0 <= j < |ops| ==> OpOk(ops[j])
    requires i < |Run(c, ops).completed|
    ensures Finished(Run(c, ops).completed[i])
  {
    hide SortsByDistance, OpOk, Run, Finished;
    RunOk(c, ops);
  }

  /** What is assumed of the routing table's answers holds of every table that can be reached. */
  lemma TableGivesSeeds(sort: Sort, self: NodeId, ops: seq<Routing.Op>, target: NodeId)
    requires SortsByDistance(sort)
    ensures var closest := Routing.Closest(sort, Routing.Run(self, ops), target, K);
            closest == [] || Seeds(target, closest)
  {
    hide Routing.Run, Routing.Closest, Routing.All, SortsByDistance;
    Routing.ClosestIsNearest(sort, self, ops, target, K);
  }
}
