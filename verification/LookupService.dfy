/** The lookup manager as the mutable object of the source (src/dht/get_peers_lookup_manager.cpp),
    every method proved equal to the transition of module LookupManager that the theorems are about. */
module LookupService {
  import opened Nearest
  import opened Lookup
  import opened LookupManager

  /** The bindings `gone` dropped, each from the pending set of the lookup it names. */
  function Unbind(m: Manager, gone: set<Txn>): (r: Manager)
    requires gone <= m.pending.Keys
  {
    m.(pending := m.pending - gone,
       lookups := map h | h in m.lookups :: m.lookups[h].(
         pending := set x | x in m.lookups[h].pending && !(x in gone && m.pending[x].hash == h)))
  }

  lemma UnbindNone(m: Manager)
    ensures Unbind(m, {}) == m
  {
    forall h | h in m.lookups
      ensures Unbind(m, {}).lookups[h] == m.lookups[h]
    {
      assert Unbind(m, {}).lookups[h].pending == m.lookups[h].pending;
    }
    assert Unbind(m, {}).lookups == m.lookups;
    assert Unbind(m, {}).pending == m.pending;
  }

  lemma UnbindOne(m: Manager, gone: set<Txn>, x: Txn)
    requires gone <= m.pending.Keys && x in m.pending && x !in gone
    ensures var h := m.pending[x].hash;
            var before := Unbind(m, gone);
            && Unbind(m, gone + {x}).pending == before.pending - {x}
            && Unbind(m, gone + {x}).lookups
               == if h in m.lookups
                  then before.lookups[h := before.lookups[h].(pending := before.lookups[h].pending - {x})]
                  else before.lookups
  {
    var h, before, after := m.pending[x].hash, Unbind(m, gone), Unbind(m, gone + {x});
    assert after.pending == before.pending - {x};
    forall g | g in m.lookups
      ensures after.lookups[g].pending == if g == h then before.lookups[g].pending - {x} else before.lookups[g].pending
    {
    }
  }

  lemma ExpirePendingKeys(m: Manager, now: int)
    ensures ExpirePending(m, now).lookups.Keys == m.lookups.Keys
  {
  }

  lemma UnbindExpired(m: Manager, now: int)
    ensures Unbind(m, Expired(m, now)) == ExpirePending(m, now)
  {
  }

  /** The lookups `gone` dropped, with every binding they list as pending. */
  function Drop(m: Manager, gone: set<InfoHash>): (r: Manager)
    requires gone <= m.lookups.Keys
  {
    m.(pending := map x | x in m.pending && (forall h :: h in gone ==> x !in m.lookups[h].pending) :: m.pending[x],
       lookups := m.lookups - gone)
  }

  lemma DropOne(m: Manager, gone: set<InfoHash>, h: InfoHash)
    requires gone <= m.lookups.Keys && h in m.lookups && h !in gone
    ensures Drop(m, gone + {h}).pending == Drop(m, gone).pending - m.lookups[h].pending
    ensures Drop(m, gone + {h}).lookups == Drop(m, gone).lookups - {h}
  {
    var after := Drop(m, gone + {h});
    forall x | x in after.pending
      ensures x !in m.lookups[h].pending
    {
      assert h in gone + {h};
    }
    assert after.pending == Drop(m, gone).pending - m.lookups[h].pending;
  }

  lemma SendAllNone(m: Manager, h: InfoHash, env: Env)
    requires h in m.lookups
    ensures SendAll(m, h, 0, env) == m
  {
  }

  lemma SendAllStep(m: Manager, h: InfoHash, i: nat, env: Env)
    requires h in m.lookups
    ensures SendAll(m, h, i + 1, env) == Send(SendAll(m, h, i, env), h, env.txn(h, i), env.now)
  {
  }

  lemma MessagesStart(h: InfoHash, nodes: seq<Entry>, env: Env)
    ensures Messages(h, nodes[..0], env) == []
  {
  }

  lemma MessagesStep(h: InfoHash, nodes: seq<Entry>, i: nat, env: Env)
    requires i < |nodes|
    ensures Messages(h, nodes[..i + 1], env) == Messages(h, nodes[..i], env) + [Outbound(env.txn(h, i), h, nodes[i].addr)]
  {
  }

  class GetPeersLookupManager {
    const config: Config
    var pending: map<Txn, Binding>
    var lookups: map<InfoHash, Lookup>
    ghost var completed: seq<Lookup>
    ghost var collided: bool

    ghost function State(): (m: Manager)
      reads this
    {
      Manager(pending, lookups, completed, collided)
    }

    constructor (config: Config)
      ensures this.config == config && State() == Run(config, [])
    {
      this.config := config;
      pending, lookups, completed, collided := map[], map[], [], false;
    }

    method EraseBindings(txns: set<Txn>)
      modifies this`pending
      ensures pending == old(pending) - txns
    {
      var todo := txns;
      while todo != {}
        invariant todo <= txns && pending == old(pending) - (txns - todo)
        decreases todo
      {
        var txn :| txn in todo;
        assert old(pending) - (txns - todo) - {txn} == old(pending) - (txns - (todo - {txn}));
        pending := pending - {txn};
        todo := todo - {txn};
      }
    }

    method ExpirePendingLocked(now: int)
      modifies this`pending, this`lookups
      ensures State() == ExpirePending(old(State()), now)
    {
      hide Unbind, ExpirePending;
      ghost var m := State();
      ghost var gone: set<Txn> := {};
      UnbindNone(m);
      var todo := pending.Keys;
      while todo != {}
        invariant todo <= m.pending.Keys && gone == Expired(m, now) - todo
        invariant State() == Unbind(m, gone)
        invariant pending == m.pending - gone
        decreases todo
      {
        var txn :| txn in todo;
        assert txn in m.pending && pending[txn] == m.pending[txn];
        if now - pending[txn].at >= TXN_TTL {
          UnbindOne(m, gone, txn);
          var hash := pending[txn].hash;
          UnbindKeys(m, gone);
          if hash in lookups {
            lookups := lookups[hash := lookups[hash].(pending := lookups[hash].pending - {txn})];
          }
          pending := pending - {txn};
          gone := gone + {txn};
          UnbindKeys(m, gone);
        }
        todo := todo - {txn};
      }
      assert gone == Expired(m, now);
      UnbindExpired(m, now);
    }

    method ExpireActiveLocked(now: int)
      modifies this`pending, this`lookups
      ensures State() == ExpireActive(old(State()), now)
    {
      ghost var m := State();
      ghost var gone: set<InfoHash> := {};
      assert Drop(m, gone).pending == m.pending;
      var todo := lookups.Keys;
      while todo != {}
        invariant todo <= m.lookups.Keys && gone == Stale(m, now) - todo
        invariant State() == Drop(m, gone)
        decreases todo
      {
        var hash :| hash in todo;
        assert hash in m.lookups && lookups[hash] == m.lookups[hash];
        if now - lookups[hash].started >= LOOKUP_TTL {
          DropOne(m, gone, hash);
          EraseBindings(lookups[hash].pending);
          lookups := lookups - {hash};
          gone := gone + {hash};
        }
        todo := todo - {hash};
      }
      assert gone == Stale(m, now);
    }

    method FinishLookup(hash: InfoHash)
      modifies this`pending, this`lookups, this`completed
      ensures State() == Finish(old(State()), hash)
    {
      if hash !in lookups {
        return;
      }
      EraseBindings(lookups[hash].pending);
      completed := completed + [lookups[hash]];
      lookups := lookups - {hash};
    }

    /** May replenish the lookup from the routing table's answer. */
    method LookupShouldFinish(hash: InfoHash, closest: seq<Entry>) returns (finish: bool)
      requires hash in lookups
      modifies this`lookups
      ensures finish == ShouldFinish(config, old(lookups[hash]), closest).0
      ensures State() == Put(old(State()), hash, ShouldFinish(config, old(lookups[hash]), closest).1)
    {
      var all := AllCandidatesQueried(lookups[hash]);
      if lookups[hash].pending != {} || !all {
        assert lookups[hash := lookups[hash]] == lookups;
        return false;
      }
      if closest != [] {
        var merged := MergeNodes(config.sort, config.self, lookups[hash], closest);
        lookups := lookups[hash := merged];
        finish := AllCandidatesQueried(merged);
      } else {
        assert lookups[hash := lookups[hash]] == lookups;
        finish := true;
      }
    }

    method AdvanceLookup(hash: InfoHash, env: Env, call: nat) returns (outbound: seq<Outbound>, done: bool)
      modifies this
      ensures Advanced(State(), outbound, done) == Advance(config, old(State()), hash, env, call)
    {
      hide ShouldFinish, Select, Finish;
      outbound, done := [], false;
      if hash !in lookups {
        return;
      }
      var finish := LookupShouldFinish(hash, env.closest(hash, call));
      if finish {
        FinishLookup(hash);
        done := true;
        return;
      }
      var inFlight := |lookups[hash].pending|;
      if inFlight >= LOOKUP_ALPHA {
        return;
      }
      var selected, next := SelectNextCandidates(lookups[hash], LOOKUP_ALPHA - inFlight);
      lookups := lookups[hash := selected];
      outbound := SendQueries(hash, next, env);
      if outbound == [] {
        var again := LookupShouldFinish(hash, env.closest(hash, call + 1));
        if again {
          FinishLookup(hash);
          done := true;
        }
      }
    }

    method SendQueries(hash: InfoHash, next: seq<Entry>, env: Env) returns (outbound: seq<Outbound>)
      requires hash in lookups
      modifies this
      ensures State() == SendAll(old(State()), hash, |next|, env)
      ensures outbound == Messages(hash, next, env)
    {
      outbound := [];
      hide Messages, SendAll;
      ghost var m := State();
      SendAllNone(m, hash, env);
      MessagesStart(hash, next, env);
      for i := 0 to |next|
        invariant hash in lookups && State() == SendAll(m, hash, i, env)
        invariant outbound == Messages(hash, next[..i], env)
      {
        var txn := env.txn(hash, i);
        ghost var before := State();
        MessagesStep(hash, next, i, env);
        SendAllStep(m, hash, i, env);
        lookups := lookups[hash := lookups[hash].(pending := lookups[hash].pending + {txn})];
        collided := collided || txn in pending;
        pending := pending[txn := Binding(hash, env.now)];
        assert State() == Send(before, hash, txn, env.now);
        outbound := outbound + [Outbound(txn, hash, next[i].addr)];
      }
      assert next[..|next|] == next;
    }

    method StartOrAdvanceLookup(hash: InfoHash, env: Env) returns (outbound: seq<Outbound>, done: bool)
      modifies this
      ensures Outcome(State(), outbound, done) == StartOrAdvance(config, old(State()), hash, env)
    {
      hide ExpirePending, ExpireActive, ShouldFinish, Advance, Finish;
      outbound, done := [], false;
      var closest := env.closest(hash, 0);
      if closest == [] {
        return;
      }
      ExpirePendingLocked(env.now);
      ExpireActiveLocked(env.now);
      if hash in lookups && lookups[hash].pending == {} {
        var finish := LookupShouldFinish(hash, env.closest(hash, 1));
        if finish {
          FinishLookup(hash);
          done := true;
        } else {
          outbound, done := AdvanceLookup(hash, env, 2);
        }
      }
      if outbound == [] && hash !in lookups {
        lookups := lookups[hash := NewLookup(hash, closest, env.now)];
        outbound, done := AdvanceLookup(hash, env, 4);
      }
    }

    method OnLookupResponse(hash: InfoHash, txn: Txn, nodes: seq<Entry>, env: Env)
      requires hash in lookups
      modifies this
      ensures State() == Absorb(config, old(State()), hash, txn, nodes, env)
    {
      hide ShouldFinish, Merge, Finish;
      ghost var m := State();
      lookups := lookups[hash := lookups[hash].(pending := lookups[hash].pending - {txn})];
      var merged := MergeNodes(config.sort, config.self, lookups[hash], nodes);
      lookups := lookups[hash := merged];
      var finish := LookupShouldFinish(hash, env.closest(hash, 0));
      assert lookups == m.lookups[hash := lookups[hash]];
      if finish {
        FinishLookup(hash);
      }
    }

    method OnGetPeersResponse(txn: Txn, nodes: seq<Entry>, env: Env) returns (outbound: seq<Outbound>, done: bool)
      modifies this
      ensures Outcome(State(), outbound, done) == OnResponse(config, old(State()), txn, nodes, env)
    {
      hide Absorb, Advance;
      outbound, done := [], false;
      if txn !in pending {
        return;
      }
      var hash := pending[txn].hash;
      if hash in lookups {
        OnLookupResponse(hash, txn, nodes, env);
        if hash in lookups {
          outbound, done := AdvanceLookup(hash, env, 1);
        } else {
          done := true;
        }
      }
      pending := pending - {txn};
    }

    /** The hashes are copied before the loop, in whatever order the table gives them. */
    method TickLookups(env: Env) returns (outbound: seq<Outbound>, ghost order: seq<InfoHash>)
      modifies this
      ensures State() == Tick(config, old(State()), order, env)
      ensures outbound == EachOutbound(config, ExpirePending(old(State()), env.now), order, env)
      ensures forall h :: h in order <==> h in old(lookups)
      ensures forall i, j :: 0 <= i < j < |order| ==> order[i] != order[j]
    {
      hide Advance, ExpirePending;
      outbound := [];
      ExpirePendingKeys(State(), env.now);
      ExpirePendingLocked(env.now);
      ghost var m := State();
      var hashes, todo := [], lookups.Keys;
      while todo != {}
        invariant forall h :: h in hashes || h in todo <==> h in m.lookups
        invariant forall h :: h in hashes ==> h !in todo
        invariant forall i, j :: 0 <= i < j < |hashes| ==> hashes[i] != hashes[j]
        invariant State() == m
        decreases todo
      {
        var hash :| hash in todo;
        hashes := hashes + [hash];
        todo := todo - {hash};
      }
      for i := 0 to |hashes|
        invariant State() == AdvanceEach(config, m, hashes[..i], env)
        invariant outbound == EachOutbound(config, m, hashes[..i], env)
      {
        assert hashes[..i + 1][..i] == hashes[..i];
        var sent, _ := AdvanceLookup(hashes[i], env, 0);
        outbound := outbound + sent;
      }
      assert hashes[..|hashes|] == hashes;
      order := hashes;
    }
  }

  lemma UnbindKeys(m: Manager, gone: set<Txn>)
    requires gone <= m.pending.Keys
    ensures Unbind(m, gone).pending == m.pending - gone
    ensures Unbind(m, gone).lookups.Keys == m.lookups.Keys
    ensures Unbind(m, gone).completed == m.completed && Unbind(m, gone).collided == m.collided
  {
  }
}
