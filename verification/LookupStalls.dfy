/** When a lookup can still be answered: never stalled while transaction ids are unused, and exactly how
    a reused id strands one (src/dht/get_peers_lookup_manager.cpp:108-138, 292-351). */
module LookupStalls {
  import opened Common
  import opened NodeIds
  import opened Nearest
  import opened Lookup
  import opened LookupManager
  import opened LookupTheorems

  /** The transactions whose answers can still reach the lookup. */
  function Bound(m: Manager, h: InfoHash): (xs: set<Txn>) {
    set x | x in m.pending && m.pending[x].hash == h
  }

  /** While no drawn id was in use, after every tick each surviving lookup has between one and six
      queries whose answers will reach it. */
  lemma NeverStalls(c: Config, ops: seq<Op>, order: seq<InfoHash>, env: Env)
    requires SortsByDistance(c.sort) && EnvOk(env) && forall i :: 0 <= i < |ops| ==> OpOk(ops[i])
    requires forall h :: h in Run(c, ops).lookups ==> h in order
    requires !Tick(c, Run(c, ops), order, env).collided
    ensures var m := Tick(c, Run(c, ops), order, env);
            forall h :: h in m.lookups ==> 1 <= |Bound(m, h)| <= LOOKUP_ALPHA
  {
    hide SortsByDistance, OpOk, Run, AdvanceEach, ExpirePending, LookupsOk, History, EnvOk;
    TickNeverStalls(c, ops, order, env);
    RunOk(c, ops);
    ExpirePendingOk(Run(c, ops), env.now);
    AdvanceEachOk(c, ExpirePending(Run(c, ops), env.now), order, env);
    var m := Tick(c, Run(c, ops), order, env);
    LiveAndExact(m);
    forall h | h in m.lookups
      ensures Bound(m, h) == m.lookups[h].pending
    {
    }
  }

  // ---------------------------------------------------------------------------
  // Stranded lookups
  // ---------------------------------------------------------------------------

  /** The lookup waits for transactions that are bound to nothing, and has nobody left to ask or no room. */
  predicate Stranded(m: Manager, h: InfoHash) {
    && h in m.lookups && m.lookups[h].pending != {}
    && (AllQueried(m.lookups[h]) || |m.lookups[h].pending| >= LOOKUP_ALPHA)
    && (forall x :: x in m.pending ==> m.pending[x].hash != h)
  }

  /** The lookup is stranded and exactly as it was. */
  ghost predicate Still(m: Manager, r: Manager, h: InfoHash) {
    h in m.lookups && Stranded(r, h) && r.lookups[h] == m.lookups[h]
  }

  lemma {:induction false} NobodyLeft(candidates: seq<Entry>, queried: set<PeerAddress>, count: nat)
    requires forall i :: 0 <= i < |candidates| ==> candidates[i].addr in queried
    ensures Selection(candidates, queried, count) == []
  {
    if candidates != [] && count > 0 {
      NobodyLeft(candidates[1..], queried, count);
    }
  }

  lemma SelectNobody(lk: Lookup, count: nat)
    requires AllQueried(lk)
    ensures Select(lk, count) == (lk, [])
  {
    NobodyLeft(lk.candidates, lk.queried, count);
    hide Selection;
    assert Addresses([]) == [] && lk.asked + [] == lk.asked && SetOf<PeerAddress>([]) == {} && lk.queried + {} == lk.queried;
  }

  /** Advancing it does nothing. */
  lemma AdvanceDoesNothing(c: Config, m: Manager, h: InfoHash, env: Env, call: nat)
    requires Stranded(m, h)
    ensures Advance(c, m, h, env, call) == Advanced(m, [], false)
  {
    hide Select;
    var lk := m.lookups[h];
    assert m.lookups[h := lk] == m.lookups;
    BusyLookupGoesOn(c, lk, env.closest(h, call));
    BusyLookupGoesOn(c, lk, env.closest(h, call + 1));
    hide ShouldFinish, Finish;
    if |lk.pending| < LOOKUP_ALPHA {
      SelectNobody(lk, LOOKUP_ALPHA - |lk.pending|);
      SendNothing(m, h, env);
    }
  }

  lemma PutElsewhere(m: Manager, g: InfoHash, lk: Lookup, h: InfoHash)
    requires Stranded(m, h) && g != h
    ensures Still(m, Put(m, g, lk), h)
  {
    hide AllQueried;
  }

  lemma FinishElsewhere(m: Manager, g: InfoHash, h: InfoHash)
    requires Stranded(m, h) && g != h
    ensures Still(m, Finish(m, g), h)
  {
    hide AllQueried;
  }

  lemma SendElsewhere(m: Manager, g: InfoHash, txn: Txn, now: int, h: InfoHash)
    requires Stranded(m, h) && g != h && g in m.lookups
    ensures Still(m, Send(m, g, txn, now), h)
  {
    hide AllQueried;
  }

  lemma {:induction false} SendAllElsewhere(m: Manager, g: InfoHash, count: nat, env: Env, h: InfoHash)
    requires Stranded(m, h) && g != h && g in m.lookups
    ensures Still(m, SendAll(m, g, count, env), h)
  {
    hide Stranded, Send;
    if count > 0 {
      SendAllElsewhere(m, g, count - 1, env, h);
      SendElsewhere(SendAll(m, g, count - 1, env), g, env.txn(g, count - 1), env.now, h);
    } else {
      assert h in m.lookups by { StrandedIsLive(m, h); }
    }
  }

  lemma StrandedIsLive(m: Manager, h: InfoHash)
    requires Stranded(m, h)
    ensures h in m.lookups && m.lookups[h].pending != {} && forall x :: x in m.pending ==> m.pending[x].hash != h
  {
  }

  lemma AdvanceKeepsStill(c: Config, m: Manager, g: InfoHash, env: Env, call: nat, h: InfoHash)
    requires Stranded(m, h)
    ensures Still(m, Advance(c, m, g, env, call).m, h)
  {
    StrandedIsLive(m, h);
    hide Stranded, ShouldFinish, Select, SendAll, Finish, Put;
    if g == h {
      AdvanceDoesNothing(c, m, h, env, call);
    } else if g in m.lookups {
      SecondFinishTestIsDead(c, m, g, env, call);
      var first := ShouldFinish(c, m.lookups[g], env.closest(g, call));
      PutElsewhere(m, g, first.1, h);
      var m1 := Put(m, g, first.1);
      FinishElsewhere(m1, g, h);
      if |first.1.pending| < LOOKUP_ALPHA {
        var selected := Select(first.1, LOOKUP_ALPHA - |first.1.pending|);
        PutElsewhere(m1, g, selected.0, h);
        var m2 := Put(m1, g, selected.0);
        PutHas(m1, g, selected.0);
        SendAllElsewhere(m2, g, |selected.1|, env, h);
      }
    }
  }

  lemma PutHas(m: Manager, g: InfoHash, lk: Lookup)
    ensures g in Put(m, g, lk).lookups
  {
  }

  lemma {:induction false} AdvanceEachStill(c: Config, m: Manager, hashes: seq<InfoHash>, env: Env, h: InfoHash)
    requires Stranded(m, h)
    ensures Still(m, AdvanceEach(c, m, hashes, env), h)
  {
    StrandedIsLive(m, h);
    hide Stranded, Advance;
    if hashes != [] {
      var before := hashes[..|hashes| - 1];
      AdvanceEachStill(c, m, before, env, h);
      AdvanceKeepsStill(c, AdvanceEach(c, m, before, env), hashes[|hashes| - 1], env, 0, h);
    }
  }

  lemma ExpirePendingStill(m: Manager, now: int, h: InfoHash)
    requires Stranded(m, h)
    ensures Still(m, ExpirePending(m, now), h)
  {
    hide AllQueried;
    var r := ExpirePending(m, now);
    assert r.lookups[h].pending == m.lookups[h].pending;
    assert r.lookups[h] == m.lookups[h];
  }

  lemma ExpireActiveStill(m: Manager, now: int, h: InfoHash)
    requires Stranded(m, h) && now - m.lookups[h].started < LOOKUP_TTL
    ensures Still(m, ExpireActive(m, now), h)
  {
    hide AllQueried;
  }

  /** The operation does not find the lookup past its time to live. */
  predicate InTime(op: Op, lk: Lookup) {
    match op
    case Start(_, env) => env.now - lk.started < LOOKUP_TTL
    case ExpireLookups(now) => now - lk.started < LOOKUP_TTL
    case _ => true
  }

  lemma StartStill(c: Config, m: Manager, g: InfoHash, env: Env, h: InfoHash)
    requires Stranded(m, h) && env.now - m.lookups[h].started < LOOKUP_TTL
    ensures Still(m, StartOrAdvance(c, m, g, env).m, h)
  {
    StrandedIsLive(m, h);
    ExpirePendingStill(m, env.now, h);
    var m0 := ExpirePending(m, env.now);
    ExpireActiveStill(m0, env.now, h);
    var m1 := ExpireActive(m0, env.now);
    StrandedIsLive(m1, h);
    hide Stranded, ShouldFinish, Advance, Finish, Put, ExpirePending, ExpireActive;
    if env.closest(g, 0) != [] && g != h {
      var ready := g in m1.lookups && m1.lookups[g].pending == {};
      var a := m1;
      if ready {
        var finish := ShouldFinish(c, m1.lookups[g], env.closest(g, 1));
        PutElsewhere(m1, g, finish.1, h);
        FinishElsewhere(Put(m1, g, finish.1), g, h);
        AdvanceKeepsStill(c, Put(m1, g, finish.1), g, env, 2, h);
        a := if finish.0 then Finish(Put(m1, g, finish.1), g) else Advance(c, Put(m1, g, finish.1), g, env, 2).m;
      }
      PutElsewhere(a, g, NewLookup(g, env.closest(g, 0), env.now), h);
      AdvanceKeepsStill(c, Put(a, g, NewLookup(g, env.closest(g, 0), env.now)), g, env, 4, h);
    }
  }

  lemma ResponseStill(c: Config, m: Manager, txn: Txn, nodes: seq<Entry>, env: Env, h: InfoHash)
    requires Stranded(m, h)
    ensures Still(m, OnResponse(c, m, txn, nodes, env).m, h)
  {
    StrandedIsLive(m, h);
    hide Stranded, ShouldFinish, Advance, Finish, Put, Merge;
    if txn in m.pending {
      var g := m.pending[txn].hash;
      ForgetStill(m, txn, h);
      if g in m.lookups {
        var lk := m.lookups[g];
        var finish := ShouldFinish(c, Merge(c.sort, c.self, lk.(pending := lk.pending - {txn}), nodes), env.closest(g, 0));
        PutElsewhere(m, g, finish.1, h);
        FinishElsewhere(Put(m, g, finish.1), g, h);
        var m1 := Absorb(c, m, g, txn, nodes, env);
        ForgetStill(m1, txn, h);
        AdvanceKeepsStill(c, m1, g, env, 1, h);
        ForgetStill(Advance(c, m1, g, env, 1).m, txn, h);
      }
    }
  }

  lemma ForgetStill(m: Manager, txn: Txn, h: InfoHash)
    requires Stranded(m, h)
    ensures Still(m, m.(pending := m.pending - {txn}), h)
  {
    hide AllQueried;
  }

  /** No operation changes a stranded lookup until it is past its time to live. */
  lemma ApplyStill(c: Config, m: Manager, op: Op, h: InfoHash)
    requires Stranded(m, h) && InTime(op, m.lookups[h])
    ensures Still(m, Apply(c, m, op), h)
  {
    StrandedIsLive(m, h);
    hide Stranded, ExpirePending, ExpireActive, StartOrAdvance, OnResponse, AdvanceEach;
    match op
    case Start(g, env) => StartStill(c, m, g, env, h);
    case Response(txn, nodes, env) => ResponseStill(c, m, txn, nodes, env, h);
    case TickAll(order, env) =>
      ExpirePendingStill(m, env.now, h);
      AdvanceEachStill(c, ExpirePending(m, env.now), order, env, h);
    case ExpireTxns(now) => ExpirePendingStill(m, now, h);
    case ExpireLookups(now) => ExpireActiveStill(m, now, h);
  }

  /** Over any continuation within its time to live: the same lookup, still stranded. */
  lemma {:induction false} StrandedStays(c: Config, ops: seq<Op>, more: seq<Op>, h: InfoHash)
    requires Stranded(Run(c, ops), h)
    requires forall i :: 0 <= i < |more| ==> InTime(more[i], Run(c, ops).lookups[h])
    ensures Still(Run(c, ops), Run(c, ops + more), h)
  {
    StrandedIsLive(Run(c, ops), h);
    hide Stranded, Apply, InTime;
    if more == [] {
      assert ops + more == ops;
    } else {
      var n := |more| - 1;
      StrandedStays(c, ops, more[..n], h);
      var all := ops + more;
      assert all[..|all| - 1] == ops + more[..n] && all[|all| - 1] == more[n];
      ApplyStill(c, Run(c, ops + more[..n]), more[n], h);
    }
  }

  // ---------------------------------------------------------------------------
  // Stranded is exactly: nothing bound, and no advance ever does anything
  // ---------------------------------------------------------------------------

  /** What the source does when the routing table is empty and a given id is drawn. */
  function Quiet(txn: Txn): (env: Env) {
    Env(0, (h: InfoHash, k: nat) => [], (h: InfoHash, k: nat) => txn)
  }

  ghost predicate Inert(c: Config, m: Manager, h: InfoHash) {
    forall env: Env, call: nat :: Advance(c, m, h, env, call) == Advanced(m, [], false)
  }

  lemma InertMeans(c: Config, m: Manager, h: InfoHash)
    requires h in m.lookups && Advance(c, m, h, Quiet("t"), 0) == Advanced(m, [], false)
    ensures m.lookups[h].pending != {} && (AllQueried(m.lookups[h]) || |m.lookups[h].pending| >= LOOKUP_ALPHA)
  {
    var lk, env := m.lookups[h], Quiet("t");
    assert m.lookups[h := lk] == m.lookups;
    if !AllQueried(lk) && |lk.pending| < LOOKUP_ALPHA {
      SomeoneLeft(lk, LOOKUP_ALPHA - |lk.pending|);
    }
  }

  lemma SomeoneLeft(lk: Lookup, count: nat)
    requires !AllQueried(lk) && count > 0
    ensures Select(lk, count).1 != []
  {
    SelectionSpec(lk.candidates, lk.queried, count);
    hide Selection;
  }

  /** A lookup is stranded if and only if no answer can reach it and advancing it never does anything. */
  lemma StrandedIff(c: Config, m: Manager, h: InfoHash)
    requires h in m.lookups
    ensures Stranded(m, h) <==> Bound(m, h) == {} && Inert(c, m, h)
  {
    if Stranded(m, h) {
      forall env: Env, call: nat
        ensures Advance(c, m, h, env, call) == Advanced(m, [], false)
      {
        AdvanceDoesNothing(c, m, h, env, call);
      }
    }
    if Bound(m, h) == {} && Inert(c, m, h) {
      assert Advance(c, m, h, Quiet("t"), 0) == Advanced(m, [], false);
      InertMeans(c, m, h);
      forall x | x in m.pending
        ensures m.pending[x].hash != h
      {
        assert x !in Bound(m, h);
      }
    }
  }

  // ---------------------------------------------------------------------------
  // A run that strands a lookup
  // ---------------------------------------------------------------------------

  function Id(n: Octet): (id: NodeId) {
    seq(20, _ => n)
  }

  /** Two nodes with one id at different addresses; no tie matters. */
  const First: Entry := Entry(Id(1), PeerAddress("a", 1), 0)
  const Second: Entry := Entry(Id(1), PeerAddress("b", 1), 0)

  /** The routing table knows the first node, and every draw gives the same id. */
  function SameDraw(): (env: Env) {
    Env(0, (h: InfoHash, k: nat) => [First], (h: InfoHash, k: nat) => "t")
  }

  function TinyConfig(): (c: Config) {
    Config(Id(0), InsertionSort)
  }

  const Target: InfoHash := Id(2)

  lemma Different()
    ensures Id(1) != Id(0)
  {
    assert Id(1)[0] == 1 && Id(0)[0] == 0;
  }

  lemma SameDrawOk()
    ensures EnvOk(SameDraw())
  {
    hide Away;
  }

  /** After the start one query is out, under the id "t". */
  function Waiting(): (m: Manager) {
    Manager(map["t" := Binding(Target, 0)],
            map[Target := Lookup(Target, [First], {First.addr}, {"t"}, 0, multiset([First]), [First.addr])], [], false)
  }

  lemma TinyStart()
    ensures StartOrAdvance(TinyConfig(), Manager(map[], map[], [], false), Target, SameDraw()).m == Waiting()
  {
    var c, env := TinyConfig(), SameDraw();
    var empty := Manager(map[], map[], [], false);
    assert ExpireActive(ExpirePending(empty, 0), 0) == empty;
    var lk := NewLookup(Target, [First], 0);
    var m1 := Put(empty, Target, lk);
    assert m1.lookups == map[Target := lk];
    hide ExpireActive, ExpirePending;
    assert !AllQueried(lk) by { assert lk.candidates[0].addr !in lk.queried; }
    TinySelect(lk);
    hide AllQueried, Select;
    AsksOne(c, m1, Target, env, 4, First);
    hide Advance;
    TinySend(m1, Select(lk, 6).0);
  }

  lemma TinySend(m: Manager, lk: Lookup)
    requires m.pending == map[] && m.completed == [] && !m.collided && m.lookups.Keys == {Target}
    requires lk == Lookup(Target, [First], {First.addr}, {}, 0, multiset([First]), [First.addr])
    ensures Send(Put(m, Target, lk), Target, "t", 0) == Waiting()
  {
    assert Put(m, Target, lk).lookups == map[Target := lk];
    assert lk.pending + {"t"} == {"t"};
  }

  /** A lookup with nothing in flight and one candidate to ask sends one query. */
  lemma AsksOne(c: Config, m: Manager, h: InfoHash, env: Env, call: nat, e: Entry)
    requires h in m.lookups && m.lookups[h].pending == {} && !AllQueried(m.lookups[h])
    requires Select(m.lookups[h], 6).1 == [e]
    ensures var r := Advance(c, m, h, env, call);
            r.m == Send(Put(m, h, Select(m.lookups[h], 6).0), h, env.txn(h, 0), env.now) && r.outbound != []
  {
    hide Select, AllQueried, Send;
    var lk := m.lookups[h];
    assert m.lookups[h := lk] == m.lookups;
    assert ShouldFinish(c, lk, env.closest(h, call)) == (false, lk);
    hide ShouldFinish;
    var m2 := Put(m, h, Select(lk, 6).0);
    assert SendAll(m2, h, 1, env) == Send(SendAll(m2, h, 0, env), h, env.txn(h, 0), env.now);
  }

  lemma TinySelect(lk: Lookup)
    requires lk == NewLookup(Target, [First], 0)
    ensures Select(lk, 6) == (lk.(queried := {First.addr}, asked := [First.addr]), [First])
  {
    assert [First][1..] == [];
    assert Selection([First], {}, 6) == [First] + Selection([], {} + {First.addr}, 5);
    assert [First] + [] == [First];
    hide Selection;
    OneAddress(First);
    assert lk.queried + {First.addr} == {First.addr} && lk.asked + [First.addr] == [First.addr];
  }

  lemma OneAddress(e: Entry)
    ensures Addresses([e]) == [e.addr] && SetOf([e.addr]) == {e.addr}
  {
    assert Addresses([e]) == [e.addr];
    assert [e.addr][0] == e.addr;
  }

  /** The lookup after the answer with the second node, which it asks under the same id. */
  function Abandoned(): (lk: Lookup) {
    Lookup(Target, [First, Second], {First.addr, Second.addr}, {"t"}, 0, multiset([First]) + multiset([Second]),
           [First.addr, Second.addr])
  }

  lemma TinyMerge(lk: Lookup)
    requires lk.target == Target && lk.candidates == [First]
    ensures Merge(InsertionSort, Id(0), lk, [Second])
            == lk.(candidates := [First, Second], learned := lk.learned + multiset([Second]))
  {
    hide Away;
    Different();
    assert [Second][..0] == [] && Others([], Id(0)) == [];
    assert Others([Second], Id(0)) == [] + [Second];
    assert [First] + [Second] == [First, Second];
    var both := [First, Second];
    assert both[1..] == [Second] && [Second][1..] == [];
    assert InsertionSort(Target, [Second]) == Insert(Target, Second, InsertionSort(Target, []));
    assert InsertionSort(Target, [Second]) == [Second];
    assert Away(Target, First) == Away(Target, Second) by { SameId(); }
    assert InsertionSort(Target, both) == Insert(Target, First, [Second]);
  }

  lemma SameId()
    ensures Away(Target, First) == Away(Target, Second)
  {
  }

  lemma TinySelectSecond(lk: Lookup)
    requires lk.candidates == [First, Second] && lk.queried == {First.addr} && lk.asked == [First.addr]
    ensures Select(lk, 6) == (lk.(queried := {First.addr, Second.addr}, asked := [First.addr, Second.addr]), [Second])
  {
    var cs := [First, Second];
    assert cs[1..] == [Second] && [Second][1..] == [];
    assert Selection(cs, lk.queried, 6) == Selection([Second], lk.queried, 6);
    assert Selection([Second], lk.queried, 6) == [Second] + Selection([], lk.queried + {Second.addr}, 5);
    assert [Second] + [] == [Second];
    hide Selection;
    OneAddress(Second);
    assert [First.addr] + [Second.addr] == [First.addr, Second.addr];
    assert {First.addr} + {Second.addr} == {First.addr, Second.addr};
  }

  /** The lookup with both nodes and nothing in flight. */
  function Merged(): (lk: Lookup) {
    Lookup(Target, [First, Second], {First.addr}, {}, 0, multiset([First]) + multiset([Second]), [First.addr])
  }

  lemma MergedIsOpen(closest: seq<Entry>)
    ensures !AllQueried(Merged()) && ShouldFinish(TinyConfig(), Merged(), closest) == (false, Merged())
  {
    assert Merged().candidates[1].addr !in Merged().queried;
  }

  lemma TinyAbsorb()
    ensures Absorb(TinyConfig(), Waiting(), Target, "t", [Second], SameDraw()) == Put(Waiting(), Target, Merged())
  {
    var c, env := TinyConfig(), SameDraw();
    var lk := Waiting().lookups[Target];
    var answered := lk.(pending := lk.pending - {"t"});
    assert answered.pending == {};
    TinyMerge(answered);
    assert Merge(c.sort, c.self, answered, [Second]) == Merged();
    MergedIsOpen(env.closest(Target, 0));
    hide Merge, ShouldFinish, Put, Merged;
  }

  lemma TinyAgain()
    ensures var m := Advance(TinyConfig(), Put(Waiting(), Target, Merged()), Target, SameDraw(), 1).m;
            m.pending == map["t" := Binding(Target, 0)] && m.lookups == map[Target := Abandoned()] && m.collided
  {
    var m1 := Put(Waiting(), Target, Merged());
    TinySelectSecond(Merged());
    MergedIsOpen([]);
    hide Select, AllQueried, ShouldFinish, Advance;
    AsksOne(TinyConfig(), m1, Target, SameDraw(), 1, Second);
    var lk := Select(Merged(), 6).0;
    var m2 := Put(m1, Target, lk);
    assert lk.pending + {"t"} == {"t"};
    assert m2.lookups == map[Target := lk];
  }

  /** The answer: the new query takes the id being answered, and the last step erases its binding. */
  lemma TinyAnswer()
    ensures var m := OnResponse(TinyConfig(), Waiting(), "t", [Second], SameDraw()).m;
            m.pending == map[] && m.lookups == map[Target := Abandoned()] && m.collided
  {
    TinyAbsorb();
    TinyAgain();
    hide Absorb, Advance, Abandoned, Merged;
    assert Target in Put(Waiting(), Target, Merged()).lookups;
    assert map["t" := Binding(Target, 0)] - {"t"} == map[];
  }

  lemma AbandonedIsStranded(m: Manager)
    requires m.pending == map[] && m.lookups == map[Target := Abandoned()]
    ensures Stranded(m, Target) && Bound(m, Target) == {}
  {
  }

  /** Two operations suffice: a start, and an answer during which the id being answered is drawn again. */
  lemma SomeRunStrands()
    ensures exists c: Config, ops: seq<Op>, h: InfoHash ::
              && SortsByDistance(c.sort) && (forall i :: 0 <= i < |ops| ==> OpOk(ops[i]))
              && Stranded(Run(c, ops), h) && Bound(Run(c, ops), h) == {} && Run(c, ops).collided
  {
    var c := TinyConfig();
    var start, answer := Start(Target, SameDraw()), Response("t", [Second], SameDraw());
    var ops := [start, answer];
    SortExists();
    SameDrawOk();
    hide SortsByDistance, EnvOk, StartOrAdvance, OnResponse, Stranded, Bound;
    TinyStart();
    TinyAnswer();
    assert ops[..1] == [start] && [start][..0] == [];
    assert Run(c, [start]) == Apply(c, Run(c, []), start);
    assert Run(c, ops) == Apply(c, Run(c, [start]), answer);
    AbandonedIsStranded(Run(c, ops));
  }
}
