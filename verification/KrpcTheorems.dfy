/** Every message a builder makes is read back in full, whatever bytes follow it. */
module KrpcTheorems {
  import opened Common
  import opened Bencode
  import opened BencodeTheorems
  import opened Krpc
  import Lru

  // ---------------------------------------------------------------------------
  // Dictionaries given by their entries
  // ---------------------------------------------------------------------------

  function FieldOf(e: Entry): (f: Field) {
    Field(e.key, Encode(e.value))
  }

  lemma {:induction false} EncodeEntriesAt(es: seq<Entry>)
    ensures |EncodeEntries(es)| == |es|
    ensures forall i :: 0 <= i < |es| ==> EncodeEntries(es)[i] == FieldOf(es[i])
  {
    if es != [] {
      EncodeEntriesAt(es[1..]);
    }
  }

  /** Entries with ascending keys: a legal dictionary. */
  lemma SortedPush(e: Entry, es: seq<Entry>)
    requires SortedKeys(es) && (es == [] || Before(e.key, es[0].key))
    ensures SortedKeys([e] + es)
  {
    hide Before;
    forall x | x in es
      ensures Before(e.key, x.key)
    {
      var i :| 0 <= i < |es| && es[i] == x;
      if i > 0 {
        BeforeTransitive(e.key, es[0].key, x.key);
      }
    }
    SortedCons(e, es);
  }

  lemma {:induction false} AtFound(es: seq<Entry>, i: nat)
    requires SortedKeys(es) && i < |es|
    ensures At(es, es[i].key) == Some(es[i].value)
  {
    if i > 0 {
      var tail := es[1..];
      assert Before(es[0].key, es[i].key);
      hide Before;
      BeforeIrreflexive(es[i].key);
      assert SortedKeys(tail) by {
        assert forall j, k :: 0 <= j < k < |tail| ==> tail[j] == es[j + 1] && tail[k] == es[k + 1];
      }
      AtFound(tail, i - 1);
    }
  }

  ghost predicate Fits(es: seq<Entry>) {
    forall i :: 0 <= i < |es| ==> |es[i].key| < TWO64 && WellFormed(es[i].value)
  }

  lemma DictEncodes(es: seq<Entry>, fields: seq<Field>)
    requires |fields| == |es| && forall i :: 0 <= i < |es| ==> fields[i] == FieldOf(es[i])
    ensures EncodeDict(fields) == Encode(BDict(es))
  {
    hide FieldOf, EncodeEntries, ConcatFields;
    EncodeEntriesAt(es);
    assert EncodeEntries(es) == fields;
  }

  /** A dictionary built from encoded fields parses back to its entries. */
  lemma DictParses(es: seq<Entry>, fields: seq<Field>, t: string)
    requires SortedKeys(es) && Fits(es)
    requires |fields| == |es| && forall i :: 0 <= i < |es| ==> fields[i] == FieldOf(es[i])
    ensures ParseKrpc(EncodeDict(fields) + t) == FromOption(MessageOf(es))
  {
    hide ParseValue, MessageOf, FieldOf, SortedKeys, Encode, EncodeDict;
    DictEncodes(es, fields);
    assert WellFormed(BDict(es));
    RoundTrip(BDict(es), t, 0);
  }

  lemma QueryParses(q: string, args: seq<Entry>, txn: string, t: string)
    requires SortedKeys(args) && Fits(args) && |q| < TWO64 && |txn| < TWO64
    ensures ParseKrpc(Query(q, Encode(BDict(args)), txn) + t) == FromOption(QueryMessage(txn, q, args))
  {
    hide QueryMessage, SortedKeys, ParseKrpc, EncodeDict, EncodeString, MessageOf, EncodeEntries;
    var root := [Entry("a", BDict(args)), Entry("q", BStr(q)), Entry("t", BStr(txn)), Entry("y", BStr("q"))];
    QueryRoot(q, args, txn);
    assert WellFormed(BDict(args));
    DictParses(root, [Field("a", Encode(BDict(args))), Field("q", EncodeString(q)), Field("t", EncodeString(txn)),
                      Field("y", EncodeString("q"))], t);
  }

  lemma QueryRoot(q: string, args: seq<Entry>, txn: string)
    ensures var root := [Entry("a", BDict(args)), Entry("q", BStr(q)), Entry("t", BStr(txn)), Entry("y", BStr("q"))];
            SortedKeys(root) && MessageOf(root) == QueryMessage(txn, q, args)
  {
    assert Before("a", "q") && Before("q", "t") && Before("t", "y");
    hide QueryMessage, At, Before, SortedKeys;
    var y, tt, qq, a := Entry("y", BStr("q")), Entry("t", BStr(txn)), Entry("q", BStr(q)), Entry("a", BDict(args));
    var root := [a, qq, tt, y];
    Three(qq, tt, y);
    SortedPush(a, [qq, tt, y]);
    assert [a] + [qq, tt, y] == root;
    AtFound(root, 0);
    AtFound(root, 1);
    AtFound(root, 2);
    AtFound(root, 3);
  }

  lemma ResponseParses(r: seq<Entry>, txn: string, t: string)
    requires SortedKeys(r) && Fits(r) && |txn| < TWO64
    ensures ParseKrpc(Response(Encode(BDict(r)), txn) + t) == Got(ResponseMessage(txn, r))
  {
    hide ResponseMessage, SortedKeys, ParseKrpc, EncodeDict, EncodeString, MessageOf, EncodeEntries;
    var root := [Entry("r", BDict(r)), Entry("t", BStr(txn)), Entry("y", BStr("r"))];
    ResponseRoot(r, txn);
    assert WellFormed(BDict(r));
    DictParses(root, [Field("r", Encode(BDict(r))), Field("t", EncodeString(txn)), Field("y", EncodeString("r"))], t);
  }

  lemma ResponseRoot(r: seq<Entry>, txn: string)
    ensures var root := [Entry("r", BDict(r)), Entry("t", BStr(txn)), Entry("y", BStr("r"))];
            SortedKeys(root) && MessageOf(root) == Some(ResponseMessage(txn, r))
  {
    assert Before("r", "t") && Before("t", "y");
    assert "r"[0] != "q"[0];
    hide ResponseMessage, At, Before, SortedKeys;
    Three(Entry("r", BDict(r)), Entry("t", BStr(txn)), Entry("y", BStr("r")));
  }

  lemma One(a: Entry)
    ensures SortedKeys([a]) && At([a], a.key) == Some(a.value)
  {
    AtFound([a], 0);
  }

  lemma Two(a: Entry, b: Entry)
    requires Before(a.key, b.key)
    ensures SortedKeys([a, b])
    ensures At([a, b], a.key) == Some(a.value) && At([a, b], b.key) == Some(b.value)
  {
    hide Before, At;
    One(b);
    SortedPush(a, [b]);
    assert [a] + [b] == [a, b];
    AtFound([a, b], 0);
    AtFound([a, b], 1);
  }

  lemma Three(a: Entry, b: Entry, c: Entry)
    requires Before(a.key, b.key) && Before(b.key, c.key)
    ensures SortedKeys([a, b, c])
    ensures At([a, b, c], a.key) == Some(a.value) && At([a, b, c], b.key) == Some(b.value)
    ensures At([a, b, c], c.key) == Some(c.value)
  {
    hide Before, At;
    Two(b, c);
    SortedPush(a, [b, c]);
    assert [a] + [b, c] == [a, b, c];
    AtFound([a, b, c], 0);
    AtFound([a, b, c], 1);
    AtFound([a, b, c], 2);
  }

  // ---------------------------------------------------------------------------
  // Queries
  // ---------------------------------------------------------------------------

  lemma PingRoundTrip(txn: string, self: Id, t: string)
    requires |txn| < TWO64
    ensures ParseKrpc(MakePing(txn, self) + t) == Got(Blank(QueryKind, txn).(query := Some(Ping), sender := self))
  {
    hide At, ParseKrpc, EncodeDict, Query, EncodeString;
    var args := [Entry("id", BStr(self))];
    One(args[0]);
    DictEncodes(args, [Field("id", EncodeString(self))]);
    QueryParses("ping", args, txn, t);
  }

  lemma FindNodeRoundTrip(txn: string, self: Id, target: Id, t: string)
    requires |txn| < TWO64
    ensures ParseKrpc(MakeFindNode(txn, self, target) + t)
            == Got(Blank(QueryKind, txn).(query := Some(FindNode), sender := self, target := target))
  {
    assert Before("id", "target");
    hide At, ParseKrpc, EncodeDict, Query, EncodeString, Before;
    var args := [Entry("id", BStr(self)), Entry("target", BStr(target))];
    Two(args[0], args[1]);
    DictEncodes(args, [Field("id", EncodeString(self)), Field("target", EncodeString(target))]);
    QueryParses("find_node", args, txn, t);
  }

  lemma GetPeersRoundTrip(txn: string, self: Id, infoHash: Id, t: string)
    requires |txn| < TWO64
    ensures ParseKrpc(MakeGetPeers(txn, self, infoHash) + t)
            == Got(Blank(QueryKind, txn).(query := Some(GetPeers), sender := self, infoHash := Some(infoHash)))
  {
    IdKeys();
    hide At, ParseKrpc, EncodeDict, Query, EncodeString, Before;
    var args := [Entry("id", BStr(self)), Entry("info_hash", BStr(infoHash))];
    Two(args[0], args[1]);
    DictEncodes(args, [Field("id", EncodeString(self)), Field("info_hash", EncodeString(infoHash))]);
    assert "get_peers"[0] != "find_node"[0];
    QueryParses("get_peers", args, txn, t);
  }

  lemma IdKeys()
    ensures Before("id", "info_hash") && Before("id", "implied_port") && Before("implied_port", "info_hash")
    ensures Before("info_hash", "port") && Before("port", "token")
    ensures Before("id", "nodes") && Before("id", "token") && Before("nodes", "token") && Before("token", "values")
  {
    assert "id"[1..] == "d" && "info_hash"[1..] == "nfo_hash" && "implied_port"[1..] == "mplied_port";
  }

  lemma AnnounceRoundTrip(txn: string, self: Id, infoHash: Id, port: nat, token: string, implied: bool, t: string)
    requires |txn| < TWO64 && |token| < TWO64 && port < 65536
    ensures ParseKrpc(MakeAnnouncePeer(txn, self, infoHash, port, token, implied) + t)
            == Got(Blank(QueryKind, txn).(query := Some(AnnouncePeer), sender := self, infoHash := Some(infoHash),
                                           port := port, token := token, implied := implied))
  {
    IdKeys();
    hide At, ParseKrpc, EncodeDict, Query, EncodeString, EncodeInteger, Before;
    var flag := if implied then 1 else 0;
    var a, b, c, d, e := Entry("id", BStr(self)), Entry("implied_port", BInt(flag)), Entry("info_hash", BStr(infoHash)),
                         Entry("port", BInt(port)), Entry("token", BStr(token));
    var args := [a, b, c, d, e];
    Three(c, d, e);
    SortedPush(b, [c, d, e]);
    assert [b] + [c, d, e] == [b, c, d, e];
    SortedPush(a, [b, c, d, e]);
    assert [a] + [b, c, d, e] == args;
    AtFound(args, 0);
    AtFound(args, 1);
    AtFound(args, 2);
    AtFound(args, 3);
    AtFound(args, 4);
    DictEncodes(args, [Field("id", EncodeString(self)), Field("implied_port", EncodeInteger(flag)),
                       Field("info_hash", EncodeString(infoHash)), Field("port", EncodeInteger(port)),
                       Field("token", EncodeString(token))]);
    QueryParses("announce_peer", args, txn, t);
  }

  // ---------------------------------------------------------------------------
  // Responses and errors
  // ---------------------------------------------------------------------------

  lemma ResponseRoundTrip(txn: string, self: Id, t: string)
    requires |txn| < TWO64
    ensures ParseKrpc(MakeResponse(txn, self) + t) == Got(Blank(ResponseKind, txn).(sender := self))
  {
    hide At, ParseKrpc, EncodeDict, Response, EncodeString, ParseNodes;
    var r := [Entry("id", BStr(self))];
    One(r[0]);
    AtMissing(r, "nodes");
    AtMissing(r, "token");
    AtMissing(r, "values");
    NoNodes();
    DictEncodes(r, [Field("id", EncodeString(self))]);
    ResponseParses(r, txn, t);
  }

  lemma ErrorRoundTrip(txn: string, code: int, msg: string, t: string)
    requires |txn| < TWO64 && |msg| < TWO64 && -0x8000_0000 <= code < 0x8000_0000
    ensures ParseKrpc(MakeError(txn, code, msg) + t)
            == Got(Blank(ErrorKind, txn).(errorCode := code, errorMsg := msg))
  {
    hide ParseKrpc, EncodeDict, EncodeString, EncodeInteger, EncodeList, SortedKeys, MessageOf;
    var items := [BInt(code), BStr(msg)];
    var root := [Entry("e", BList(items)), Entry("t", BStr(txn)), Entry("y", BStr("e"))];
    ErrorRoot(items, txn);
    EncodeAllTwo(BInt(code), BStr(msg));
    assert WellFormed(BList(items));
    DictParses(root, [Field("e", EncodeList([EncodeInteger(code), EncodeString(msg)])), Field("t", EncodeString(txn)),
                      Field("y", EncodeString("e"))], t);
  }

  lemma ErrorRoot(items: seq<BValue>, txn: string)
    ensures var root := [Entry("e", BList(items)), Entry("t", BStr(txn)), Entry("y", BStr("e"))];
            SortedKeys(root) && MessageOf(root) == Some(ErrorMessage(txn, items))
  {
    assert Before("e", "t") && Before("t", "y");
    assert "e"[0] != "q"[0] && "e"[0] != "r"[0];
    hide At, Before, ErrorMessage;
    Three(Entry("e", BList(items)), Entry("t", BStr(txn)), Entry("y", BStr("e")));
  }

  lemma EncodeAllTwo(v: BValue, w: BValue)
    ensures EncodeAll([v, w]) == [Encode(v), Encode(w)]
  {
    assert [v, w][1..] == [w] && [w][1..] == [];
  }

  // ---------------------------------------------------------------------------
  // Node lists
  // ---------------------------------------------------------------------------

  ghost predicate NodesOk(nodes: seq<Node>) {
    forall i :: 0 <= i < |nodes| ==> NodeOk(nodes[i])
  }

  lemma {:induction false} RecordsOfCompacts(nodes: seq<Node>)
    requires NodesOk(nodes)
    ensures Records(Concat(Compacts(nodes))) == Compacts(nodes)
    ensures |Concat(Compacts(nodes))| == 26 * |nodes|
  {
    if nodes != [] {
      var head, tail := NodeToCompact(nodes[0]), nodes[1..];
      RecordsOfCompacts(tail);
      ConcatCons(head, Compacts(tail));
      NodeRoundTrip(nodes[0]);
      hide Concat, NodeToCompact, NodeOk;
      var s := head + Concat(Compacts(tail));
      assert s[..26] == head && s[26..] == Concat(Compacts(tail));
    }
  }

  lemma CompactInjective(n: Node, m: Node)
    requires NodeOk(n) && NodeOk(m) && NodeToCompact(n) == NodeToCompact(m)
    ensures n == m
  {
    NodeRoundTrip(n);
    NodeRoundTrip(m);
  }

  lemma {:induction false} DropCompacts(nodes: seq<Node>, n: Node)
    requires NodesOk(nodes) && NodeOk(n)
    ensures NodesOk(Lru.Drop(nodes, n))
    ensures Lru.Drop(Compacts(nodes), NodeToCompact(n)) == Compacts(Lru.Drop(nodes, n))
  {
    hide NodeToCompact, NodeOk;
    if nodes != [] {
      var head, tail := nodes[0], nodes[1..];
      DropCompacts(tail, n);
      assert Compacts(nodes)[1..] == Compacts(tail);
      if head == n {
        assert Lru.Drop(nodes, n) == Lru.Drop(tail, n);
      } else {
        if NodeToCompact(head) == NodeToCompact(n) {
          CompactInjective(head, n);
          assert false;
        }
        var rest := Lru.Drop(tail, n);
        assert Lru.Drop(nodes, n) == [head] + rest;
        assert ([head] + rest)[1..] == rest;
      }
    }
  }

  lemma {:induction false} DistinctCompacts(nodes: seq<Node>)
    requires NodesOk(nodes)
    ensures NodesOk(Lru.Distinct(nodes))
    ensures Lru.Distinct(Compacts(nodes)) == Compacts(Lru.Distinct(nodes))
  {
    hide NodeToCompact, NodeOk, Lru.Drop;
    if nodes != [] {
      var head, tail := nodes[0], nodes[1..];
      DistinctCompacts(tail);
      assert Compacts(nodes)[1..] == Compacts(tail);
      DropCompacts(Lru.Distinct(tail), head);
      var rest := Lru.Drop(Lru.Distinct(tail), head);
      assert ([head] + rest)[1..] == rest;
    }
  }

  lemma {:induction false} CountCompacts(nodes: seq<Node>, n: Node)
    requires NodesOk(nodes) && NodeOk(n)
    ensures multiset(Compacts(nodes))[NodeToCompact(n)] == multiset(nodes)[n]
  {
    hide NodeToCompact, NodeOk;
    if nodes != [] {
      var head, tail := nodes[0], nodes[1..];
      CountCompacts(tail, n);
      assert Compacts(nodes) == [NodeToCompact(head)] + Compacts(tail);
      assert nodes == [head] + tail;
      hide Compacts;
      CountCons(head, tail, n);
      CountCons(NodeToCompact(head), Compacts(tail), NodeToCompact(n));
      if NodeToCompact(head) == NodeToCompact(n) {
        CompactInjective(head, n);
      }
    }
  }

  /** What a node list says on arrival: its different nodes in order of first appearance, each with
      the number of times it was sent. */
  function Received(nodes: seq<Node>): (r: NodeList) {
    NodeList(Lru.Distinct(nodes), CountsOf(Lru.Distinct(nodes), nodes))
  }

  lemma NodeListRoundTrip(nodes: seq<Node>)
    requires NodesOk(nodes)
    ensures ParseNodes(NodesToCompact(nodes)) == Received(nodes)
  {
    hide Records, Concat, NodeToCompact, NodeOk;
    RecordsOfCompacts(nodes);
    DistinctCompacts(nodes);
    var d, records := Lru.Distinct(nodes), Compacts(nodes);
    hide Lru.Distinct;
    DistinctRecords(NodesToCompact(nodes));
    var r := ParseNodes(NodesToCompact(nodes));
    forall i | 0 <= i < |d|
      ensures r.nodes[i] == d[i] && r.counts[i] == CountsOf(d, nodes)[i]
    {
      NodeRoundTrip(d[i]);
      CountCompacts(nodes, d[i]);
      assert Compacts(d)[i] == NodeToCompact(d[i]);
    }
    assert r.nodes == d;
    assert r.counts == CountsOf(d, nodes);
  }

  lemma NodesResponseRoundTrip(txn: string, self: Id, nodes: seq<Node>, t: string)
    requires |txn| < TWO64 && NodesOk(nodes) && 26 * |nodes| < TWO64
    ensures ParseKrpc(MakeNodesResponse(txn, self, nodes) + t)
            == Got(Blank(ResponseKind, txn).(sender := self, nodes := Received(nodes).nodes,
                                              counts := Received(nodes).counts))
  {
    hide ParseKrpc, EncodeDict, Response, EncodeString, ParseNodes, Received, Concat, ResponseMessage, SortedKeys;
    RecordsOfCompacts(nodes);
    NodeListRoundTrip(nodes);
    var compact := NodesToCompact(nodes);
    var r := [Entry("id", BStr(self)), Entry("nodes", BStr(compact))];
    NodesFields(txn, self, compact);
    DictEncodes(r, [Field("id", EncodeString(self)), Field("nodes", EncodeString(compact))]);
    ResponseParses(r, txn, t);
  }

  lemma NodesFields(txn: string, self: Id, compact: string)
    ensures var r := [Entry("id", BStr(self)), Entry("nodes", BStr(compact))];
            && SortedKeys(r)
            && ResponseMessage(txn, r) == Blank(ResponseKind, txn).(sender := self, nodes := ParseNodes(compact).nodes,
                                                                    counts := ParseNodes(compact).counts)
  {
    IdKeys();
    assert "nodes"[0] != "token"[0];
    hide At, Before, ParseNodes;
    var r := [Entry("id", BStr(self)), Entry("nodes", BStr(compact))];
    Two(r[0], r[1]);
    AtMissing(r, "token");
    AtMissing(r, "values");
  }

  lemma NodesResponseGpRoundTrip(txn: string, self: Id, token: string, nodes: seq<Node>, t: string)
    requires |txn| < TWO64 && |token| < TWO64 && NodesOk(nodes) && 26 * |nodes| < TWO64
    ensures ParseKrpc(MakeNodesResponseGp(txn, self, token, nodes) + t)
            == Got(Blank(ResponseKind, txn).(sender := self, token := token, nodes := Received(nodes).nodes,
                                              counts := Received(nodes).counts))
  {
    IdKeys();
    hide At, ParseKrpc, EncodeDict, Response, EncodeString, ParseNodes, Before, Received, Concat;
    RecordsOfCompacts(nodes);
    NodeListRoundTrip(nodes);
    var compact := NodesToCompact(nodes);
    var r := [Entry("id", BStr(self)), Entry("nodes", BStr(compact)), Entry("token", BStr(token))];
    Three(r[0], r[1], r[2]);
    AtMissing(r, "values");
    DictEncodes(r, [Field("id", EncodeString(self)), Field("nodes", EncodeString(compact)),
                    Field("token", EncodeString(token))]);
    ResponseParses(r, txn, t);
  }

  // ---------------------------------------------------------------------------
  // Peer lists
  // ---------------------------------------------------------------------------

  ghost predicate PeersOk(peers: seq<Peer>) {
    forall i :: 0 <= i < |peers| ==> PeerOk(peers[i])
  }

  function CompactPeers(peers: seq<Peer>): (r: seq<string>)
    requires forall i :: 0 <= i < |peers| ==> PeerOk(peers[i])
    ensures |r| == |peers| && forall i :: 0 <= i < |peers| ==> r[i] == PeerToCompact(peers[i])
  {
    if peers == [] then [] else [PeerToCompact(peers[0])] + CompactPeers(peers[1..])
  }

  function Strings(xs: seq<string>): (r: seq<BValue>)
    ensures |r| == |xs| && forall i :: 0 <= i < |xs| ==> r[i] == BStr(xs[i])
  {
    if xs == [] then [] else [BStr(xs[0])] + Strings(xs[1..])
  }

  lemma {:induction false} EncodedPeersAre(peers: seq<Peer>)
    requires PeersOk(peers)
    ensures EncodedPeers(peers) == EncodeAll(Strings(CompactPeers(peers)))
  {
    hide PeerOk, PeerToCompact, EncodeString;
    if peers != [] {
      EncodedPeersAre(peers[1..]);
      var x, xs := PeerToCompact(peers[0]), CompactPeers(peers[1..]);
      assert ([x] + xs)[1..] == xs;
      assert ([BStr(x)] + Strings(xs))[1..] == Strings(xs);
    }
  }

  lemma {:induction false} SixByteAll(xs: seq<string>)
    requires forall i :: 0 <= i < |xs| ==> |xs[i]| == 6
    ensures SixByteStrings(Strings(xs)) == xs
  {
    if xs != [] {
      var n := |xs| - 1;
      SixByteAll(xs[..n]);
      assert Strings(xs)[..n] == Strings(xs[..n]);
      SixByteMore(Strings(xs[..n]), xs[n]);
      hide SixByteStrings;
      SplitEnd(Strings(xs));
      SplitEnd(xs);
    }
  }

  lemma SixByteMore(items: seq<BValue>, x: string)
    requires |x| == 6
    ensures SixByteStrings(items + [BStr(x)]) == SixByteStrings(items) + [x]
  {
    assert (items + [BStr(x)])[..|items|] == items;
  }

  /** The values are the compact peers sent, and each decodes to its peer. */
  lemma PeersResponseRoundTrip(txn: string, self: Id, token: string, peers: seq<Peer>, t: string)
    requires |txn| < TWO64 && |token| < TWO64 && PeersOk(peers)
    ensures ParseKrpc(MakePeersResponse(txn, self, token, peers) + t)
            == Got(Blank(ResponseKind, txn).(sender := self, token := token, values := CompactPeers(peers)))
    ensures forall i :: 0 <= i < |peers| ==>
              |CompactPeers(peers)[i]| == 6 && CompactToPeer(CompactPeers(peers)[i]) == peers[i]
  {
    hide ParseKrpc, EncodeDict, Response, EncodeString, PeerToCompact, PeerOk, CompactToPeer, EncodeList,
         ResponseMessage, SortedKeys;
    var xs := CompactPeers(peers);
    forall i | 0 <= i < |peers|
      ensures |xs[i]| == 6 && CompactToPeer(xs[i]) == peers[i]
    {
      PeerRoundTrip(peers[i]);
    }
    PeersFields(txn, self, token, xs);
    EncodedPeersAre(peers);
    var values := BList(Strings(xs));
    assert WellFormed(values);
    var r := [Entry("id", BStr(self)), Entry("token", BStr(token)), Entry("values", values)];
    DictEncodes(r, [Field("id", EncodeString(self)), Field("token", EncodeString(token)),
                    Field("values", EncodeList(EncodedPeers(peers)))]);
    ResponseParses(r, txn, t);
  }

  lemma PeersFields(txn: string, self: Id, token: string, xs: seq<string>)
    requires forall i :: 0 <= i < |xs| ==> |xs[i]| == 6
    ensures var r := [Entry("id", BStr(self)), Entry("token", BStr(token)), Entry("values", BList(Strings(xs)))];
            && SortedKeys(r)
            && ResponseMessage(txn, r) == Blank(ResponseKind, txn).(sender := self, token := token, values := xs)
  {
    IdKeys();
    assert "nodes"[0] != "token"[0];
    hide At, Before, ParseNodes, SixByteStrings;
    SixByteAll(xs);
    var r := [Entry("id", BStr(self)), Entry("token", BStr(token)), Entry("values", BList(Strings(xs)))];
    Three(r[0], r[1], r[2]);
    AtMissing(r, "nodes");
    NoNodes();
  }

  /** A datagram on which parse_krpc has no defined result: the guard of the string reader wraps. */
  lemma UndefinedDatagram()
    ensures ParseKrpc(Digits(TWO64 - 1) + ":") == Undefined
  {
    hide ParseValue, Digits;
    GuardFails();
  }

  /** A datagram has a defined result if and only if no string that the parser starts to read has a
      length that wraps. */
  lemma DefinedIff(data: string)
    requires |data| < TWO64
    ensures ParseKrpc(data) != Undefined <==> !SomeWraps(data, ValueStarts(data, 0))
  {
    hide ParseValue, SomeWraps, MessageOf, ValueStarts;
    OutsideIffSomeWraps(data, 0);
    assert data[0..] == data;
  }
}
