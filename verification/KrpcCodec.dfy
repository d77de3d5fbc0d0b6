/** The step-by-step parts of the KRPC codec (src/dht/krpc.cpp), proved against module Krpc. */
module KrpcCodec {
  import opened Common
  import opened Bencode
  import opened BencodeParser
  import opened Krpc
  import Lru

  method CompactNodes(nodes: seq<Node>) returns (out: string)
    requires forall i :: 0 <= i < |nodes| ==> NodeOk(nodes[i])
    ensures out == NodesToCompact(nodes)
  {
    hide NodeOk, NodeToCompact;
    out := "";
    for i := 0 to |nodes|
      invariant out == Concat(Compacts(nodes)[..i])
    {
      assert Compacts(nodes)[..i + 1][..i] == Compacts(nodes)[..i];
      out := out + NodeToCompact(nodes[i]);
    }
    assert Compacts(nodes)[..|nodes|] == Compacts(nodes);
  }

  /** One more use at the end of a history: a new key goes to the end of the distinct list. */
  lemma {:induction false} DistinctSnoc(h: seq<string>, x: string)
    ensures Lru.Distinct(h + [x]) == if x in h then Lru.Distinct(h) else Lru.Distinct(h) + [x]
  {
    if h == [] {
      assert h + [x] == [x];
      assert [x][1..] == [];
    } else {
      var head, tail := h[0], h[1..];
      DistinctSnoc(tail, x);
      assert (h + [x])[1..] == tail + [x];
      var d := Lru.Distinct(tail);
      hide Lru.Distinct;
      if x !in tail {
        Lru.DropConcat(d, [x], head);
        assert Lru.Drop([x], head) == if x == head then [] else [x];
        hide Lru.Drop;
        if x == head {
          assert Lru.Drop(d, head) + [] == Lru.Drop(d, head);
        } else {
          ConcatAssoc([head], Lru.Drop(d, head), [x]);
        }
      }
    }
  }

  /** `index` gives the place of every key seen so far, and the lists say what was seen. */
  ghost predicate Indexed(done: seq<string>, index: map<string, nat>, nodes: seq<Node>, counts: seq<nat>) {
    var d := Lru.Distinct(done);
    && |nodes| == |d| && |counts| == |d|
    && (forall j :: 0 <= j < |d| ==> |d[j]| == 26 && nodes[j] == CompactToNode(d[j]))
    && (forall j :: 0 <= j < |d| ==> counts[j] == multiset(done)[d[j]])
    && (forall k :: k in index <==> k in done)
    && (forall k :: k in index ==> index[k] < |d| && d[index[k]] == k)
  }

  lemma AgainStep(done: seq<string>, index: map<string, nat>, nodes: seq<Node>, counts: seq<nat>, key: string)
    requires Indexed(done, index, nodes, counts) && key in index
    ensures index[key] < |counts|
    ensures Indexed(done + [key], index, nodes, counts[index[key] := counts[index[key]] + 1])
  {
    DistinctSnoc(done, key);
    Lru.DistinctSpec(done);
    hide Lru.Distinct, CompactToNode;
    var d, p := Lru.Distinct(done), index[key];
    forall j | 0 <= j < |d|
      ensures multiset(done + [key])[d[j]] == multiset(done)[d[j]] + if j == p then 1 else 0
    {
      assert j != p ==> d[j] != d[p];
    }
  }

  lemma NewStep(done: seq<string>, index: map<string, nat>, nodes: seq<Node>, counts: seq<nat>, key: string)
    requires Indexed(done, index, nodes, counts) && key !in index && |key| == 26
    ensures Indexed(done + [key], index[key := |nodes|], nodes + [CompactToNode(key)], counts + [1])
  {
    DistinctSnoc(done, key);
    Lru.DistinctSpec(done);
    hide Lru.Distinct, CompactToNode;
    var d := Lru.Distinct(done);
    forall j | 0 <= j < |d|
      ensures multiset(done + [key])[d[j]] == multiset(done)[d[j]]
    {
      assert d[j] in done;
    }
  }

  lemma IndexedAll(s: string, index: map<string, nat>, nodes: seq<Node>, counts: seq<nat>)
    requires Indexed(Records(s), index, nodes, counts)
    ensures NodeList(nodes, counts) == ParseNodes(s)
  {
    hide Records, Lru.Distinct, CompactToNode;
    DistinctRecords(s);
    assert nodes == ParseNodes(s).nodes;
    assert counts == ParseNodes(s).counts;
  }

  /** The index map finds repeats; each costs one look-up. */
  method ParseNodeList(compact: string) returns (nodes: seq<Node>, counts: seq<nat>)
    ensures NodeList(nodes, counts) == ParseNodes(compact)
  {
    nodes, counts := [], [];
    var index: map<string, nat> := map[];
    ghost var done: seq<string> := [];
    var i := 0;
    assert compact[0..] == compact && done + Records(compact) == Records(compact);
    assert Indexed(done, index, nodes, counts);
    hide Indexed, CompactToNode;
    while i + 26 <= |compact|
      invariant 0 <= i <= |compact|
      invariant Records(compact) == done + Records(compact[i..])
      invariant Indexed(done, index, nodes, counts)
    {
      var key := compact[i..i + 26];
      RecordStep(compact, i, done);
      if key in index {
        AgainStep(done, index, nodes, counts, key);
        counts := counts[index[key] := counts[index[key]] + 1];
      } else {
        NewStep(done, index, nodes, counts, key);
        index := index[key := |nodes|];
        nodes := nodes + [CompactToNode(key)];
        counts := counts + [1];
      }
      done := done + [key];
      i := i + 26;
    }
    assert done + [] == done;
    IndexedAll(compact, index, nodes, counts);
  }

  lemma RecordStep(s: string, i: nat, done: seq<string>)
    requires i + 26 <= |s|
    ensures done + Records(s[i..]) == done + [s[i..i + 26]] + Records(s[i + 26..])
  {
    assert s[i..][..26] == s[i..i + 26] && s[i..][26..] == s[i + 26..];
    ConcatAssoc(done, [s[i..i + 26]], Records(s[i + 26..]));
  }

  method ParsePeerList(items: seq<BValue>) returns (out: seq<string>)
    ensures out == SixByteStrings(items)
  {
    out := [];
    for i := 0 to |items|
      invariant out == SixByteStrings(items[..i])
    {
      assert items[..i + 1][..i] == items[..i];
      if items[i].BStr? && |items[i].s| == 6 {
        out := out + [items[i].s];
      }
    }
    assert items[..|items|] == items;
  }

  /** parse_krpc, filling the message step by step. */
  method DecodeMessage(data: string) returns (r: Decoded)
    ensures r == ParseKrpc(data)
  {
    hide ParseValue, At, ParseNodes, SixByteStrings;
    var parser := new Parser(data);
    assert data[0..] == data;
    var root := parser.ReadValue();
    if root.Err? {
      return if root.error.OutsideBuffer? then Undefined else Refused;
    }
    if !root.value.BDict? {
      return Refused;
    }
    var dict := root.value.entries;
    var y := StringAt(dict, "y");
    var msg := Blank(ResponseKind, StringAt(dict, "t"));
    if y == "q" {
      msg := msg.(kind := QueryKind);
      var a := DictAt(dict, "a");
      if a.None? {
        return Refused;
      }
      var query := DecodeQuery(msg, StringAt(dict, "q"), a.value);
      r := FromOption(query);
    } else if y == "r" {
      var d := DictAt(dict, "r");
      if d.None? {
        return Refused;
      }
      msg := msg.(sender := IdFrom(StringAt(d.value, "id")));
      var raw := StringAt(d.value, "nodes");
      if raw != "" {
        var nodes, counts := ParseNodeList(raw);
        msg := msg.(nodes := nodes, counts := counts);
      } else {
        NoNodes();
      }
      var values := ParsePeerList(ListAt(d.value, "values"));
      r := Got(msg.(token := StringAt(d.value, "token"), values := values));
    } else if y == "e" {
      msg := msg.(kind := ErrorKind);
      var e := ListAt(dict, "e");
      if |e| >= 2 {
        if e[0].BInt? {
          msg := msg.(errorCode := ToInt32(e[0].n));
        }
        if e[1].BStr? {
          msg := msg.(errorMsg := e[1].s);
        }
      }
      r := Got(msg);
    } else {
      return Refused;
    }
  }

  method DecodeQuery(base: Message, q: string, a: seq<Entry>) returns (r: Option<Message>)
    requires base == Blank(QueryKind, base.txn)
    ensures r == QueryMessage(base.txn, q, a)
  {
    hide At;
    var msg := base.(sender := IdFrom(StringAt(a, "id")));
    if q == "ping" {
      msg := msg.(query := Some(Ping));
    } else if q == "find_node" {
      msg := msg.(query := Some(FindNode), target := IdFrom(StringAt(a, "target")));
    } else if q == "get_peers" {
      msg := msg.(query := Some(GetPeers));
      var hash := StringAt(a, "info_hash");
      if |hash| != 20 {
        return None;
      }
      msg := msg.(infoHash := Some(hash));
    } else if q == "announce_peer" {
      msg := msg.(query := Some(AnnouncePeer));
      var hash := StringAt(a, "info_hash");
      if |hash| != 20 {
        return None;
      }
      msg := msg.(infoHash := Some(hash), token := StringAt(a, "token"));
      msg := msg.(port := ToUint16(IntegerAt(a, "port")), implied := IntegerAt(a, "implied_port") != 0);
    } else {
      return None;
    }
    return Some(msg);
  }
}
