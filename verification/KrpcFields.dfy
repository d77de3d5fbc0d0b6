/** What parse_krpc reads from any dictionary, canonical or not and whatever other keys it has: each field
    comes from its own key alone (src/dht/krpc.cpp:164-341). */
module KrpcFields {
  import opened Common
  import opened Bencode
  import opened Krpc
  import Lru

  // ---------------------------------------------------------------------------
  // A value as a field; a missing key or another type gives the default
  // ---------------------------------------------------------------------------

  function TextOf(v: Option<BValue>): (s: string) {
    if v.Some? && v.value.BStr? then v.value.s else ""
  }

  function NumberOf(v: Option<BValue>): (n: int) {
    if v.Some? && v.value.BInt? then v.value.n else 0
  }

  function ItemsIn(v: Option<BValue>): (items: seq<BValue>) {
    if v.Some? && v.value.BList? then v.value.items else []
  }

  /** Twenty bytes are an id; anything else reads as the zero id. */
  predicate IsIdOf(id: Id, v: Option<BValue>) {
    id == if |TextOf(v)| == 20 then TextOf(v) else ZERO_ID
  }

  /** The same number modulo 2^16, and modulo 2^32 with a sign. */
  predicate IsPortOf(port: nat, n: int) {
    port < 65536 && (n - port) % 65536 == 0
  }

  predicate IsCodeOf(code: int, n: int) {
    -0x8000_0000 <= code < 0x8000_0000 && (n - code) % 0x1_0000_0000 == 0
  }

  /** The i-th whole record of a node list. */
  function RecordAt(s: string, i: nat): (r: string)
    requires 26 * i + 26 <= |s|
  {
    s[26 * i..26 * i + 26]
  }

  lemma {:induction false} RecordsSpec(s: string)
    ensures |Records(s)| == |s| / 26
    ensures forall i :: 0 <= i < |Records(s)| ==> 26 * i + 26 <= |s| && Records(s)[i] == RecordAt(s, i)
  {
    if |s| >= 26 {
      RecordsSpec(s[26..]);
      forall i | 0 <= i < |Records(s)|
        ensures 26 * i + 26 <= |s| && Records(s)[i] == RecordAt(s, i)
      {
        if i > 0 {
          assert Records(s)[i] == Records(s[26..])[i - 1];
        }
      }
    }
  }

  /** The different records of the list in order of first appearance, each with its number of occurrences. */
  ghost predicate AreNodesOf(nodes: seq<Node>, counts: seq<nat>, s: string) {
    var records := Records(s);
    var different := Lru.Distinct(records);
    && |nodes| == |counts| == |different|
    && (forall i :: 0 <= i < |different| ==> |different[i]| == 26 && nodes[i] == CompactToNode(different[i]))
    && (forall i :: 0 <= i < |different| ==> counts[i] == multiset(records)[different[i]])
  }

  predicate IsPeer(v: BValue) {
    v.BStr? && |v.s| == 6
  }

  ghost predicate Rising(ps: seq<nat>, bound: nat) {
    && (forall i :: 0 <= i < |ps| ==> ps[i] < bound)
    && (forall i, j :: 0 <= i < j < |ps| ==> ps[i] < ps[j])
  }

  /** The six-byte strings of the list, all of them and in order: `ps` are their places. */
  ghost predicate ArePeersAt(values: seq<string>, items: seq<BValue>, ps: seq<nat>) {
    && Rising(ps, |items|) && |ps| == |values|
    && (forall i :: 0 <= i < |ps| ==> IsPeer(items[ps[i]]) && values[i] == items[ps[i]].s)
    && (forall p :: 0 <= p < |items| && IsPeer(items[p]) ==> p in ps)
  }

  ghost predicate ArePeersOf(values: seq<string>, items: seq<BValue>) {
    exists ps :: ArePeersAt(values, items, ps)
  }

  lemma {:induction false} PeersSpec(items: seq<BValue>) returns (ps: seq<nat>)
    ensures ArePeersAt(SixByteStrings(items), items, ps)
  {
    if items == [] {
      ps := [];
    } else {
      var n := |items| - 1;
      var before := PeersSpec(items[..n]);
      ps := before + if IsPeer(items[n]) then [n] else [];
      hide SixByteStrings;
      assert forall p :: 0 <= p < n ==> items[..n][p] == items[p];
      SixByteStep(items);
      forall p | 0 <= p < |items| && IsPeer(items[p])
        ensures p in ps
      {
        if p < n {
          assert p in before;
        } else {
          assert ps[|before|] == n;
        }
      }
    }
  }

  lemma SixByteStep(items: seq<BValue>)
    requires items != []
    ensures var last := items[|items| - 1];
            SixByteStrings(items) == SixByteStrings(items[..|items| - 1]) + if IsPeer(last) then [last.s] else []
  {
  }

  // ---------------------------------------------------------------------------
  // The messages
  // ---------------------------------------------------------------------------

  /** The datagram starts with this dictionary. */
  predicate Carries(data: string, root: seq<Entry>) {
    ParseValue(data, 0).Ok? && ParseValue(data, 0).value.value == BDict(root)
  }

  predicate NoQueryFields(m: Message) {
    m.query == None && m.target == ZERO_ID && m.infoHash == None && m.port == 0 && !m.implied
  }

  predicate NoResponseFields(m: Message) {
    m.nodes == [] && m.counts == [] && m.values == []
  }

  predicate NoErrorFields(m: Message) {
    m.errorCode == 0 && m.errorMsg == ""
  }

  /** A response: sender, nodes, token and values, each from its own key. */
  lemma ResponseFields(data: string, root: seq<Entry>, r: seq<Entry>)
    requires Carries(data, root) && At(root, "y") == Some(BStr("r")) && At(root, "r") == Some(BDict(r))
    ensures ParseKrpc(data).Got?
    ensures var m := ParseKrpc(data).message;
            && m.kind == ResponseKind && m.txn == TextOf(At(root, "t")) && IsIdOf(m.sender, At(r, "id"))
            && m.token == TextOf(At(r, "token"))
            && AreNodesOf(m.nodes, m.counts, TextOf(At(r, "nodes")))
            && ArePeersOf(m.values, ItemsIn(At(r, "values")))
            && NoQueryFields(m) && NoErrorFields(m)
  {
    hide ParseValue, At, Records, Lru.Distinct, SixByteStrings, CompactToNode;
    assert "r"[0] != "q"[0];
    DistinctRecords(TextOf(At(r, "nodes")));
    var ps := PeersSpec(ItemsIn(At(r, "values")));
  }

  /** The argument that must be an info-hash. */
  predicate HasHash(a: seq<Entry>) {
    |TextOf(At(a, "info_hash"))| == 20
  }

  /** Which queries are understood. */
  predicate Understood(q: string, a: seq<Entry>) {
    q == "ping" || q == "find_node" || ((q == "get_peers" || q == "announce_peer") && HasHash(a))
  }

  /** The arguments of each kind of query, each from its own key. */
  predicate HasArguments(m: Message, q: string, a: seq<Entry>) {
    && (q == "ping" ==> m.query == Some(Ping))
    && (q == "find_node" ==> m.query == Some(FindNode) && IsIdOf(m.target, At(a, "target")))
    && (q == "get_peers" ==> m.query == Some(GetPeers))
    && (q != "find_node" ==> m.target == ZERO_ID)
    && (q == "get_peers" || q == "announce_peer" ==> m.infoHash == Some(TextOf(At(a, "info_hash"))))
    && (q == "ping" || q == "find_node" ==> m.infoHash == None)
    && (q != "announce_peer" ==> m.token == "" && m.port == 0 && !m.implied)
    && (q == "announce_peer" ==>
          && m.query == Some(AnnouncePeer) && m.token == TextOf(At(a, "token"))
          && IsPortOf(m.port, NumberOf(At(a, "port"))) && m.implied == (NumberOf(At(a, "implied_port")) != 0))
  }

  /** What is to be shown of one query. */
  ghost predicate QueryRight(txn: string, q: string, a: seq<Entry>) {
    && (QueryMessage(txn, q, a).Some? <==> Understood(q, a))
    && (QueryMessage(txn, q, a).Some? ==>
          var m := QueryMessage(txn, q, a).value;
          && m.kind == QueryKind && m.txn == txn && IsIdOf(m.sender, At(a, "id"))
          && NoResponseFields(m) && NoErrorFields(m) && HasArguments(m, q, a))
  }

  lemma KindsDiffer()
    ensures "ping" != "find_node" && "ping" != "get_peers" && "ping" != "announce_peer"
    ensures "find_node" != "get_peers" && "find_node" != "announce_peer" && "get_peers" != "announce_peer"
  {
    assert "get_peers"[0] != "find_node"[0];
    assert |"ping"| == 4 && |"find_node"| == 9 && |"get_peers"| == 9 && |"announce_peer"| == 13;
  }

  lemma PortIsRead(a: seq<Entry>)
    ensures IsPortOf(ToUint16(IntegerAt(a, "port")), NumberOf(At(a, "port")))
  {
    hide At, IsPortOf, IsCodeOf, ToUint16, ToInt32;
    assert IntegerAt(a, "port") == NumberOf(At(a, "port"));
    LowBits(NumberOf(At(a, "port")));
  }

  lemma PingRight(txn: string, a: seq<Entry>)
    ensures QueryRight(txn, "ping", a)
  {
    hide At, ToUint16, IsPortOf, IdFrom, IsIdOf;
    KindsDiffer();
    IdIsRead(a, "id");
    IdIsRead(a, "target");
    PortIsRead(a);
  }

  lemma FindNodeRight(txn: string, a: seq<Entry>)
    ensures QueryRight(txn, "find_node", a)
  {
    hide At, ToUint16, IsPortOf, IdFrom, IsIdOf;
    KindsDiffer();
    IdIsRead(a, "id");
    IdIsRead(a, "target");
    PortIsRead(a);
  }

  lemma GetPeersRight(txn: string, a: seq<Entry>)
    ensures QueryRight(txn, "get_peers", a)
  {
    hide At, ToUint16, IsPortOf, IdFrom, IsIdOf;
    KindsDiffer();
    IdIsRead(a, "id");
    IdIsRead(a, "target");
    PortIsRead(a);
  }

  lemma AnnounceRight(txn: string, a: seq<Entry>)
    ensures QueryRight(txn, "announce_peer", a)
  {
    hide At, ToUint16, IsPortOf, IdFrom, IsIdOf;
    KindsDiffer();
    IdIsRead(a, "id");
    IdIsRead(a, "target");
    PortIsRead(a);
  }

  lemma UnknownRight(txn: string, q: string, a: seq<Entry>)
    requires q != "ping" && q != "find_node" && q != "get_peers" && q != "announce_peer"
    ensures QueryRight(txn, q, a)
  {
    hide At, ToUint16, IsPortOf, IdFrom, IsIdOf, HasArguments;
  }

  lemma QueryArguments(txn: string, q: string, a: seq<Entry>)
    ensures QueryRight(txn, q, a)
  {
    hide QueryRight;
    if q == "ping" {
      PingRight(txn, a);
    } else if q == "find_node" {
      FindNodeRight(txn, a);
    } else if q == "get_peers" {
      GetPeersRight(txn, a);
    } else if q == "announce_peer" {
      AnnounceRight(txn, a);
    } else {
      UnknownRight(txn, q, a);
    }
  }

  lemma IdIsRead(a: seq<Entry>, key: string)
    ensures IsIdOf(IdFrom(StringAt(a, key)), At(a, key))
  {
    hide At;
  }

  /** A query: sender and the arguments of its kind, each from its own key; refused exactly when its kind is
      unknown or its info-hash is not twenty bytes. */
  lemma QueryFields(data: string, root: seq<Entry>, a: seq<Entry>)
    requires Carries(data, root) && At(root, "y") == Some(BStr("q")) && At(root, "a") == Some(BDict(a))
    ensures ParseKrpc(data).Got? <==> Understood(TextOf(At(root, "q")), a)
    ensures !ParseKrpc(data).Got? ==> ParseKrpc(data) == Refused
    ensures ParseKrpc(data).Got? ==>
              var m := ParseKrpc(data).message;
              && m.kind == QueryKind && m.txn == TextOf(At(root, "t")) && IsIdOf(m.sender, At(a, "id"))
              && NoResponseFields(m) && NoErrorFields(m) && HasArguments(m, TextOf(At(root, "q")), a)
  {
    hide ParseValue, At, QueryMessage, Understood, HasArguments, IsIdOf;
    QueryArguments(TextOf(At(root, "t")), TextOf(At(root, "q")), a);
  }

  lemma LowBits(n: int)
    ensures IsPortOf(ToUint16(n), n) && IsCodeOf(ToInt32(n), n)
  {
    var q := n / 65536;
    assert n - n % 65536 == 65536 * q;
    var m := n + 0x8000_0000;
    var k := m / 0x1_0000_0000;
    assert n - ToInt32(n) == 0x1_0000_0000 * k;
  }

  /** An error: code and text from the first two items of its list, each if it has the right type. */
  lemma ErrorFields(data: string, root: seq<Entry>)
    requires Carries(data, root) && At(root, "y") == Some(BStr("e"))
    ensures ParseKrpc(data).Got?
    ensures var m, e := ParseKrpc(data).message, ItemsIn(At(root, "e"));
            && m.kind == ErrorKind && m.txn == TextOf(At(root, "t")) && m.sender == ZERO_ID && m.token == ""
            && NoQueryFields(m) && NoResponseFields(m)
            && (if |e| < 2 then NoErrorFields(m)
                else && IsCodeOf(m.errorCode, NumberOf(Some(e[0]))) && (e[0].BInt? || m.errorCode == 0)
                     && m.errorMsg == TextOf(Some(e[1])))
  {
    hide ParseValue, At;
    assert "e"[0] != "q"[0] && "e"[0] != "r"[0];
    var e := ItemsIn(At(root, "e"));
    if |e| >= 2 && e[0].BInt? {
      LowBits(e[0].n);
    }
  }

  /** Everything else is refused: no dictionary, another kind of message, or a query without arguments or
      response without results. */
  lemma OthersAreRefused(data: string)
    requires ParseKrpc(data) != Undefined
    requires forall root ::
               !(&& Carries(data, root)
                 && (|| At(root, "y") == Some(BStr("e"))
                     || (At(root, "y") == Some(BStr("q")) && At(root, "a").Some? && At(root, "a").value.BDict?)
                     || (At(root, "y") == Some(BStr("r")) && At(root, "r").Some? && At(root, "r").value.BDict?)))
    ensures ParseKrpc(data) == Refused
  {
    hide ParseValue, At;
    if ParseValue(data, 0).Ok? && ParseValue(data, 0).value.value.BDict? {
      var root := ParseValue(data, 0).value.value.entries;
      assert Carries(data, root);
    }
  }

  // ---------------------------------------------------------------------------
  // Compact addresses are in network byte order
  // ---------------------------------------------------------------------------

  lemma PeerBytes(p: Peer)
    requires PeerOk(p)
    ensures var s := PeerToCompact(p);
            |s| == 6 && s[..4] == p.ip && s[4] as nat * 256 + s[5] as nat == p.port && s[5] as nat < 256
  {
    var s := PeerToCompact(p);
    assert s[..4] == p.ip;
  }

  lemma NodeBytes(n: Node)
    requires NodeOk(n)
    ensures var s := NodeToCompact(n);
            && |s| == 26 && s[..20] == n.id && s[20..24] == n.peer.ip
            && s[24] as nat * 256 + s[25] as nat == n.peer.port && s[25] as nat < 256
  {
    PeerBytes(n.peer);
    var s := NodeToCompact(n);
    assert s[..20] == n.id && s[20..24] == n.peer.ip;
  }
}
