/** The queries a lookup sends, and how old the bindings that wait for their answers can get. */
module LookupQueries {
  import opened Common
  import opened NodeIds
  import opened Nearest
  import opened Lookup
  import opened LookupManager
  import opened LookupTheorems
  import opened LookupHistory

  // ---------------------------------------------------------------------------
  // One round of queries
  // ---------------------------------------------------------------------------

  function Recipients(sent: seq<Outbound>): (r: seq<PeerAddress>) {
    seq(|sent|, j requires 0 <= j < |sent| => sent[j].to)
  }

  function Txns(sent: seq<Outbound>): (r: seq<Txn>) {
    seq(|sent|, j requires 0 <= j < |sent| => sent[j].txn)
  }

  /** Exactly the transactions sent are bound anew. */
  ghost predicate Bound(m: Manager, r: Manager, h: InfoHash, sent: seq<Outbound>, now: int) {
    && r.pending.Keys == m.pending.Keys + SetOf(Txns(sent))
    && forall x :: x in r.pending ==> r.pending[x] == if x in Txns(sent) then Binding(h, now) else m.pending[x]
  }

  /** What was sent is asked, waited for and bound, and nothing else is. */
  ghost predicate Sent(m: Manager, r: Manager, h: InfoHash, sent: seq<Outbound>, now: int) {
    && Bound(m, r, h, sent, now)
    && (forall j :: 0 <= j < |sent| ==> sent[j].hash == h)
    && h in m.lookups && h in r.lookups
    && r.lookups[h].asked == m.lookups[h].asked + Recipients(sent)
    && r.lookups[h].queried == m.lookups[h].queried + SetOf(Recipients(sent))
    && r.lookups[h].pending == m.lookups[h].pending + SetOf(Txns(sent))
  }

  lemma {:induction false} SendAllBinds(m: Manager, h: InfoHash, nodes: seq<Entry>, env: Env, count: nat)
    requires h in m.lookups && count <= |nodes|
    ensures var r, sent := SendAll(m, h, count, env), Messages(h, nodes[..count], env);
            && Bound(m, r, h, sent, env.now)
            && r.lookups[h] == m.lookups[h].(pending := m.lookups[h].pending + SetOf(Txns(sent)))
  {
    hide Messages, SetOf, Txns, Bound, SendAll, Send;
    if count == 0 {
      assert nodes[..0] == [];
      NothingSent(m, h, env);
      SendNothing(m, h, env);
    } else {
      SendAllBinds(m, h, nodes, env, count - 1);
      OneMessageMore(h, nodes, env, count - 1);
      var before, sent, txn := Messages(h, nodes[..count - 1], env), Messages(h, nodes[..count], env), env.txn(h, count - 1);
      var r := SendAll(m, h, count - 1, env);
      BindOne(m, r, h, before, sent, txn, env.now);
      SendOneMore(m, h, count, env);
      assert r.lookups[h].pending + {txn} == m.lookups[h].pending + (SetOf(Txns(before)) + {txn});
    }
  }

  lemma SendOneMore(m: Manager, h: InfoHash, count: nat, env: Env)
    requires h in m.lookups && count > 0
    ensures var r, txn := SendAll(m, h, count - 1, env), env.txn(h, count - 1);
            && SendAll(m, h, count, env) == Send(r, h, txn, env.now)
            && Send(r, h, txn, env.now).lookups[h] == r.lookups[h].(pending := r.lookups[h].pending + {txn})
  {
  }

  lemma NothingSent(m: Manager, h: InfoHash, env: Env)
    requires h in m.lookups
    ensures Bound(m, m, h, Messages(h, [], env), env.now) && SetOf(Txns(Messages(h, [], env))) == {}
    ensures m.lookups[h].pending + SetOf(Txns(Messages(h, [], env))) == m.lookups[h].pending
  {
    assert Messages(h, [], env) == [];
    assert Txns([]) == [];
    assert SetOf<Txn>([]) == {};
  }

  lemma BindOne(m: Manager, r: Manager, h: InfoHash, before: seq<Outbound>, sent: seq<Outbound>, txn: Txn, now: int)
    requires h in r.lookups && Bound(m, r, h, before, now) && Txns(sent) == Txns(before) + [txn]
    requires SetOf(Txns(sent)) == SetOf(Txns(before)) + {txn}
    ensures Bound(m, Send(r, h, txn, now), h, sent, now)
  {
    hide Txns, SetOf;
    assert Send(r, h, txn, now).pending == r.pending[txn := Binding(h, now)];
  }

  lemma OneMessageMore(h: InfoHash, nodes: seq<Entry>, env: Env, k: nat)
    requires k < |nodes|
    ensures var before, sent := Messages(h, nodes[..k], env), Messages(h, nodes[..k + 1], env);
            && Txns(sent) == Txns(before) + [env.txn(h, k)]
            && SetOf(Txns(sent)) == SetOf(Txns(before)) + {env.txn(h, k)}
  {
    assert Txns(Messages(h, nodes[..k + 1], env)) == Txns(Messages(h, nodes[..k], env)) + [env.txn(h, k)];
  }

  lemma SentTo(h: InfoHash, nodes: seq<Entry>, env: Env)
    ensures Recipients(Messages(h, nodes, env)) == Addresses(nodes)
  {
  }

  /** A finish test asks nobody. */
  lemma KeepsAsked(c: Config, lk: Lookup, table: seq<Entry>)
    ensures var lk1 := ShouldFinish(c, lk, table).1;
            lk1.asked == lk.asked && lk1.queried == lk.queried && lk1.pending == lk.pending
  {
  }

  /** A round that selects fewer than it may has asked every candidate. */
  lemma ShortRound(lk: Lookup, count: nat)
    ensures |Select(lk, count).1| <= count
    ensures |Select(lk, count).1| == count || AllQueried(Select(lk, count).0)
  {
    hide Selection;
    SelectionSpec(lk.candidates, lk.queried, count);
    var cut := NearestFirst(lk.candidates, lk.queried, count);
  }

  lemma NobodyAsked(m: Manager, r: Manager, h: InfoHash, now: int)
    requires h in m.lookups && h in r.lookups && r.pending == m.pending
    requires r.lookups[h].asked == m.lookups[h].asked && r.lookups[h].queried == m.lookups[h].queried
    requires r.lookups[h].pending == m.lookups[h].pending
    ensures Sent(m, r, h, [], now)
  {
  }

  /** advance_lookup of a lookup that goes on: six transactions are in flight or every candidate has
      been asked, and the messages are exactly the newly asked addresses, each waited for and bound. */
  lemma AdvanceAsks(c: Config, m: Manager, h: InfoHash, env: Env, call: nat)
    requires h in m.lookups && !Advance(c, m, h, env, call).completed
    ensures var a := Advance(c, m, h, env, call);
            && Sent(m, a.m, h, a.outbound, env.now)
            && |a.outbound| <= (if |m.lookups[h].pending| < 6 then 6 - |m.lookups[h].pending| else 0)
            && (|m.lookups[h].pending| + |a.outbound| >= 6 || AllQueried(a.m.lookups[h]))
  {
    hide Advance, ShouldFinish, SendAll, Selection, Bound, SetOf, AllQueried, Recipients, Txns;
    SecondFinishTestIsDead(c, m, h, env, call);
    var lk, table := m.lookups[h], env.closest(h, call);
    KeepsAsked(c, lk, table);
    var lk1 := ShouldFinish(c, lk, table).1;
    var m1 := Put(m, h, lk1);
    if |lk1.pending| >= LOOKUP_ALPHA {
      NobodyAsked(m, m1, h, env.now);
    } else {
      var count := LOOKUP_ALPHA - |lk1.pending|;
      hide Select, Messages, Sent;
      RoundAsks(m, m1, h, count, env);
    }
  }

  /** One round of at most `count` queries. */
  lemma RoundAsks(m: Manager, m1: Manager, h: InfoHash, count: nat, env: Env)
    requires h in m.lookups && h in m1.lookups && m1.pending == m.pending && m1.lookups[h].asked == m.lookups[h].asked
    requires m1.lookups[h].queried == m.lookups[h].queried && m1.lookups[h].pending == m.lookups[h].pending
    ensures var selected := Select(m1.lookups[h], count);
            var r := SendAll(Put(m1, h, selected.0), h, |selected.1|, env);
            && Sent(m, r, h, Messages(h, selected.1, env), env.now) && |selected.1| <= count
            && |Messages(h, selected.1, env)| == |selected.1|
            && (|selected.1| == count || AllQueried(r.lookups[h]))
  {
    hide SendAll, Selection, Bound, SetOf, AllQueried, Recipients, Txns;
    var selected := Select(m1.lookups[h], count);
    var m2, nodes := Put(m1, h, selected.0), selected.1;
    assert nodes[..|nodes|] == nodes;
    SendAllBinds(m2, h, nodes, env, |nodes|);
    ShortRound(m1.lookups[h], count);
    SentTo(h, nodes, env);
    BoundFrom(m, m2, SendAll(m2, h, |nodes|, env), h, Messages(h, nodes, env), env.now);
    SameQueried(selected.0, SendAll(m2, h, |nodes|, env).lookups[h]);
  }

  lemma BoundFrom(m: Manager, m1: Manager, r: Manager, h: InfoHash, sent: seq<Outbound>, now: int)
    requires m1.pending == m.pending && Bound(m1, r, h, sent, now)
    ensures Bound(m, r, h, sent, now)
  {
  }

  lemma SameQueried(a: Lookup, b: Lookup)
    requires b.candidates == a.candidates && b.queried == a.queried
    ensures AllQueried(b) == AllQueried(a)
  {
  }

  // ---------------------------------------------------------------------------
  // What the operations report
  // ---------------------------------------------------------------------------

  /** The messages are those to the addresses lookup h has newly asked. */
  ghost predicate Asks(before: seq<PeerAddress>, r: Manager, h: InfoHash, sent: seq<Outbound>) {
    && (forall j :: 0 <= j < |sent| ==> sent[j].hash == h)
    && h in r.lookups && r.lookups[h].asked == before + Recipients(sent)
  }

  /** advance_lookup reports completion exactly when it ends the lookup, and then sends nothing. */
  lemma AdvanceReports(c: Config, m: Manager, h: InfoHash, env: Env, call: nat)
    requires h in m.lookups
    ensures var a := Advance(c, m, h, env, call);
            && (a.completed <==> h !in a.m.lookups)
            && (a.completed ==> a.outbound == [])
            && (!a.completed ==> Asks(m.lookups[h].asked, a.m, h, a.outbound))
  {
    hide Advance, ShouldFinish, SendAll, Selection, Messages, Recipients, Sent, Finish;
    SecondFinishTestIsDead(c, m, h, env, call);
    var a := Advance(c, m, h, env, call);
    if a.completed {
      FinishedIsGone(Put(m, h, ShouldFinish(c, m.lookups[h], env.closest(h, call)).1), h);
    } else {
      AdvanceAsks(c, m, h, env, call);
      SentAsks(m, a.m, h, a.outbound, env.now);
    }
  }

  lemma FinishedIsGone(m: Manager, h: InfoHash)
    ensures h !in Finish(m, h).lookups
  {
  }

  lemma SentAsks(m: Manager, r: Manager, h: InfoHash, sent: seq<Outbound>, now: int)
    requires Sent(m, r, h, sent, now)
    ensures h in m.lookups && Asks(m.lookups[h].asked, r, h, sent)
  {
    hide Bound, Recipients;
  }

  lemma NoneAsked(before: seq<PeerAddress>, r: Manager, h: InfoHash)
    requires h in r.lookups && r.lookups[h].asked == before
    ensures Asks(before, r, h, [])
  {
    assert Recipients([]) == [];
  }

  /** on_response reports completion exactly when the answer completes its lookup; otherwise it sends to
      exactly the addresses newly asked. */
  lemma ResponseReports(c: Config, m: Manager, op: Op)
    requires op.Response?
    ensures var o := OnResponse(c, m, op.txn, op.nodes, op.env);
            if op.txn in m.pending && m.pending[op.txn].hash in m.lookups then
              var h := m.pending[op.txn].hash;
              && (o.completed <==> Completes(c, m, op, h))
              && (o.completed ==> o.outbound == [] && h !in o.m.lookups)
              && (!o.completed ==> Asks(m.lookups[h].asked, o.m, h, o.outbound))
            else !o.completed && o.outbound == []
  {
    hide Absorb, Advance, HeardIn, Completes, Dry, Moves, Recipients;
    if op.txn in m.pending && m.pending[op.txn].hash in m.lookups {
      var h := m.pending[op.txn].hash;
      AbsorbMoves(c, m, op, h);
      AbsorbAsksNobody(c, m, op, h);
      var m1 := Absorb(c, m, h, op.txn, op.nodes, op.env);
      if Completes(c, m, op, h) {
        MovesEnds(m, m1, h, HeardIn(c, m, op, h));
      } else {
        MovesGoesOn(m, m1, h, HeardIn(c, m, op, h));
        QuietAdvance(c, m1, h, op.env, 1);
        AdvanceReports(c, m1, h, op.env, 1);
      }
    }
  }

  lemma AbsorbAsksNobody(c: Config, m: Manager, op: Op, h: InfoHash)
    requires op.Response? && h in m.lookups
    ensures var r := Absorb(c, m, h, op.txn, op.nodes, op.env);
            h in r.lookups ==> r.lookups[h].asked == m.lookups[h].asked
  {
    hide ShouldFinish, Others;
    var lk := m.lookups[h];
    var merged := Merge(c.sort, c.self, lk.(pending := lk.pending - {op.txn}), op.nodes);
    KeepsAsked(c, merged, op.env.closest(h, 0));
  }

  /** start_or_advance never reports completion: a lookup it finds exhausted is followed at once by a new
      one, whose report overwrites the first. It sends to exactly the addresses newly asked. */
  lemma StartReports(c: Config, m: Manager, op: Op)
    requires op.Start?
    ensures var o, h := StartOrAdvance(c, m, op.hash, op.env), op.hash;
            && !o.completed
            && (op.env.closest(h, 0) == [] ==> o.outbound == [])
            && (op.env.closest(h, 0) != [] ==>
                  Asks(if Begins(c, m, op, h) then [] else m.lookups[h].asked, o.m, h, o.outbound))
  {
    hide ExpirePending, ExpireActive, ShouldFinish, Others, Finish, Advance, Begins, Asks, Aged, NewLookup;
    var h, env := op.hash, op.env;
    var seeds := env.closest(h, 0);
    if seeds != [] {
      var m1 := ExpireActive(ExpirePending(m, env.now), env.now);
      BothExpiries(m, env.now);
      WhenBegins(c, m, m1, op);
      if h !in m1.lookups {
        FreshReports(c, m1, h, seeds, env);
      } else if m1.lookups[h].pending != {} {
        NoneAsked(m.lookups[h].asked, m1, h);
      } else {
        RevisitReports(c, m1, h, env);
        var f := ShouldFinish(c, m1.lookups[h], env.closest(h, 1));
        if f.0 {
          FinishedIsGone(Put(m1, h, f.1), h);
          FreshReports(c, Finish(Put(m1, h, f.1), h), h, seeds, env);
        }
      }
    }
  }

  /** A start begins a new lookup exactly if none is left after the expiry, or the one left is done. */
  lemma WhenBegins(c: Config, m: Manager, m1: Manager, op: Op)
    requires op.Start? && op.env.closest(op.hash, 0) != [] && Aged(m, m1, op.env.now)
    ensures op.hash in m1.lookups ==> op.hash in m.lookups && m1.lookups[op.hash].asked == m.lookups[op.hash].asked
    ensures Begins(c, m, op, op.hash) <==>
              op.hash in m1.lookups ==> m1.lookups[op.hash].pending == {}
                                        && ShouldFinish(c, m1.lookups[op.hash], op.env.closest(op.hash, 1)).0
  {
    hide ShouldFinish, Others, Dry, Done;
    var h := op.hash;
    if h in m1.lookups {
      var lk, table := m1.lookups[h], op.env.closest(h, 1);
      SameDone(c, m.lookups[h], lk, table);
      FinishTest(c, lk, table);
      DoneIsDry(c, lk, table);
    }
  }

  lemma DoneIsDry(c: Config, lk: Lookup, table: seq<Entry>)
    ensures Done(c, lk, lk.candidates, lk.pending, table) ==> lk.pending == {}
  {
  }

  lemma FreshReports(c: Config, m: Manager, h: InfoHash, seeds: seq<Entry>, env: Env)
    requires h !in m.lookups && seeds != []
    ensures var a := Advance(c, Put(m, h, NewLookup(h, seeds, env.now)), h, env, 4);
            !a.completed && Asks([], a.m, h, a.outbound)
  {
    hide Advance, Recipients;
    FreshMoves(c, m, h, seeds, env);
    AdvanceReports(c, Put(m, h, NewLookup(h, seeds, env.now)), h, env, 4);
  }

  lemma RevisitReports(c: Config, m: Manager, h: InfoHash, env: Env)
    requires h in m.lookups && m.lookups[h].pending == {}
    ensures var f := ShouldFinish(c, m.lookups[h], env.closest(h, 1));
            var a := Advance(c, Put(m, h, f.1), h, env, 2);
            !f.0 ==> !a.completed && h in a.m.lookups && Asks(m.lookups[h].asked, a.m, h, a.outbound)
  {
    hide ShouldFinish, Others, Dry, Done, Moves, Advance, Recipients;
    var f := ShouldFinish(c, m.lookups[h], env.closest(h, 1));
    FinishTest(c, m.lookups[h], env.closest(h, 1));
    KeepsAsked(c, m.lookups[h], env.closest(h, 1));
    if !f.0 {
      QuietAdvance(c, Put(m, h, f.1), h, env, 2);
      AdvanceReports(c, Put(m, h, f.1), h, env, 2);
    }
  }

  /** The messages for one hash. */
  function For(sent: seq<Outbound>, h: InfoHash): (r: seq<Outbound>) {
    if sent == [] then []
    else For(sent[..|sent| - 1], h) + if sent[|sent| - 1].hash == h then [sent[|sent| - 1]] else []
  }

  lemma {:induction false} ForConcat(a: seq<Outbound>, b: seq<Outbound>, h: InfoHash)
    ensures For(a + b, h) == For(a, h) + For(b, h)
  {
    if b == [] {
      assert a + b == a;
      assert For(a, h) + [] == For(a, h);
    } else {
      var n := |b| - 1;
      ForConcat(a, b[..n], h);
      assert (a + b)[..|a + b| - 1] == a + b[..n];
      var last := if b[n].hash == h then [b[n]] else [];
      ConcatAssoc(For(a, h), For(b[..n], h), last);
    }
  }

  lemma {:induction false} ForOne(sent: seq<Outbound>, g: InfoHash, h: InfoHash)
    requires forall j :: 0 <= j < |sent| ==> sent[j].hash == g
    ensures For(sent, h) == if g == h then sent else []
  {
    if sent != [] {
      var n := |sent| - 1;
      ForOne(sent[..n], g, h);
      SplitEnd(sent);
    }
  }

  /** What a visit of the lookups of `order` has sent for hash h. */
  ghost predicate Told(m: Manager, r: Manager, h: InfoHash, sent: seq<Outbound>) {
    && (h in r.lookups ==> h in m.lookups && r.lookups[h].asked == m.lookups[h].asked + Recipients(For(sent, h)))
  }

  /** tick sends, for each lookup that goes on, to exactly the addresses newly asked, in order. */
  lemma {:induction false} EachTold(c: Config, m: Manager, order: seq<InfoHash>, env: Env, h: InfoHash)
    ensures Told(m, AdvanceEach(c, m, order, env), h, EachOutbound(c, m, order, env))
  {
    hide Advance, Recipients;
    if order == [] {
      NobodyTold(m, h);
    } else {
      var n := |order| - 1;
      var before, g := order[..n], order[n];
      EachTold(c, m, before, env, h);
      var m1, sent := AdvanceEach(c, m, before, env), EachOutbound(c, m, before, env);
      var a := Advance(c, m1, g, env, 0);
      ForConcat(sent, a.outbound, h);
      hide AdvanceEach, EachOutbound, For;
      if g in m1.lookups {
        AdvanceReports(c, m1, g, env, 0);
        OneMoreTold(c, m, m1, a, g, h, sent, env);
      } else {
        AdvanceMissing(c, m1, g, env, 0);
        SilentAdvance(c, m1, g, env, 0);
        NoMessages(sent, h);
      }
    }
  }

  lemma NobodyTold(m: Manager, h: InfoHash)
    ensures Told(m, m, h, [])
  {
    assert Recipients(For([], h)) == [];
  }

  lemma NoMessages(sent: seq<Outbound>, h: InfoHash)
    ensures For(sent, h) + For([], h) == For(sent, h)
  {
  }

  lemma SilentAdvance(c: Config, m: Manager, h: InfoHash, env: Env, call: nat)
    requires h !in m.lookups
    ensures Advance(c, m, h, env, call).outbound == []
  {
  }

  lemma OneMoreTold(c: Config, m: Manager, m1: Manager, a: Advanced, g: InfoHash, h: InfoHash, sent: seq<Outbound>, env: Env)
    requires g in m1.lookups && Told(m, m1, h, sent) && a == Advance(c, m1, g, env, 0)
    requires (a.completed <==> g !in a.m.lookups) && (a.completed ==> a.outbound == [])
    requires !a.completed ==> Asks(m1.lookups[g].asked, a.m, g, a.outbound)
    requires For(sent + a.outbound, h) == For(sent, h) + For(a.outbound, h)
    ensures Told(m, a.m, h, sent + a.outbound)
  {
    hide Advance, For, Recipients;
    AdvanceFrame(c, m1, g, env, h);
    if h in a.m.lookups {
      if a.completed {
        assert a.outbound == [];
        NoMessages(sent, h);
      } else {
        ForOne(a.outbound, g, h);
        if h == g {
          RecipientsConcat(For(sent, h), a.outbound);
          ConcatAssoc(m.lookups[h].asked, Recipients(For(sent, h)), Recipients(a.outbound));
        } else {
          assert For(sent, h) + [] == For(sent, h);
        }
      }
    }
  }

  lemma AdvanceFrame(c: Config, m: Manager, g: InfoHash, env: Env, h: InfoHash)
    requires g in m.lookups
    ensures var r := Advance(c, m, g, env, 0).m;
            && (h in r.lookups ==> h in m.lookups)
            && (h != g && h in r.lookups ==> r.lookups[h] == m.lookups[h])
  {
    hide Advance, Done, Dry, Others;
    AdvanceHears(c, m, g, env, 0);
  }

  lemma RecipientsConcat(a: seq<Outbound>, b: seq<Outbound>)
    ensures Recipients(a + b) == Recipients(a) + Recipients(b)
  {
  }

  /** tick: the lookups that go on have asked exactly the addresses the messages name. */
  lemma TickReports(c: Config, m: Manager, op: Op, h: InfoHash)
    requires op.TickAll?
    ensures var r, sent := Apply(c, m, op), EachOutbound(c, ExpirePending(m, op.env.now), op.order, op.env);
            h in r.lookups ==> h in m.lookups && r.lookups[h].asked == m.lookups[h].asked + Recipients(For(sent, h))
  {
    hide AdvanceEach, EachOutbound, ExpirePending, Recipients, For;
    ExpiryOfBindings(m, op.env.now);
    EachTold(c, ExpirePending(m, op.env.now), op.order, op.env, h);
  }

  // ---------------------------------------------------------------------------
  // The age of bindings
  // ---------------------------------------------------------------------------

  /** Every binding of r is one of m or was made at `now`. */
  ghost predicate NoOlder(m: Manager, r: Manager, now: int) {
    forall x :: x in r.pending ==> r.pending[x].at == now || (x in m.pending && r.pending[x] == m.pending[x])
  }

  lemma AdvanceNoOlder(c: Config, m: Manager, h: InfoHash, env: Env, call: nat)
    ensures NoOlder(m, Advance(c, m, h, env, call).m, env.now)
  {
    hide Advance, ShouldFinish, SendAll, Selection, Bound, Messages;
    SecondFinishTestIsDead(c, m, h, env, call);
    if h in m.lookups {
      var first := ShouldFinish(c, m.lookups[h], env.closest(h, call));
      if !first.0 && |first.1.pending| < LOOKUP_ALPHA {
        var selected := Select(first.1, LOOKUP_ALPHA - |first.1.pending|);
        var m1 := Put(Put(m, h, first.1), h, selected.0);
        SendAllBinds(m1, h, selected.1, env, |selected.1|);
        BoundNoOlder(m, m1, SendAll(m1, h, |selected.1|, env), h, Messages(h, selected.1[..|selected.1|], env), env.now);
      }
    }
  }

  lemma BoundNoOlder(m: Manager, m1: Manager, r: Manager, h: InfoHash, sent: seq<Outbound>, now: int)
    requires m1.pending == m.pending && Bound(m1, r, h, sent, now)
    ensures NoOlder(m, r, now)
  {
    hide Txns;
  }

  lemma {:induction false} EachNoOlder(c: Config, m: Manager, order: seq<InfoHash>, env: Env)
    ensures NoOlder(m, AdvanceEach(c, m, order, env), env.now)
  {
    hide Advance;
    if order != [] {
      var n := |order| - 1;
      EachNoOlder(c, m, order[..n], env);
      AdvanceNoOlder(c, AdvanceEach(c, m, order[..n], env), order[n], env, 0);
    }
  }

  /** After a tick, a start that found seeds, or an expiry, no binding is 30 seconds old. */
  lemma NoStaleBindings(c: Config, m: Manager, op: Op)
    requires op.TickAll? || (op.Start? && op.env.closest(op.hash, 0) != []) || op.ExpireTxns?
    ensures var r, now := Apply(c, m, op), if op.ExpireTxns? then op.now else op.env.now;
            forall x :: x in r.pending ==> now - r.pending[x].at < 30 * 1000
  {
    hide Advance, ExpirePending, ExpireActive, AdvanceEach, ShouldFinish;
    var now := if op.ExpireTxns? then op.now else op.env.now;
    var m1 := ExpirePending(m, now);
    ExpiryOfBindings(m, now);
    if op.TickAll? {
      EachNoOlder(c, m1, op.order, op.env);
    } else if op.Start? {
      var h, env := op.hash, op.env;
      var m2 := ExpireActive(m1, now);
      ExpiryOfLookups(m1, now);
      if h in m2.lookups && m2.lookups[h].pending == {} {
        var f := ShouldFinish(c, m2.lookups[h], env.closest(h, 1));
        AdvanceNoOlder(c, Put(m2, h, f.1), h, env, 2);
        var m3 := if f.0 then Finish(Put(m2, h, f.1), h) else Advance(c, Put(m2, h, f.1), h, env, 2).m;
        AdvanceNoOlder(c, Put(m3, h, NewLookup(h, env.closest(h, 0), now)), h, env, 4);
      } else {
        AdvanceNoOlder(c, Put(m2, h, NewLookup(h, env.closest(h, 0), now)), h, env, 4);
      }
    }
  }
}
