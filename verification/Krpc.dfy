/** The KRPC messages of the DHT (src/dht/krpc.cpp). An IPv4 address is its four bytes, a node id or
    info-hash its twenty; the time at which a parsed node is stamped is not part of a message. */
module Krpc {
  import opened Common
  import opened Bencode
  import Lru

  type Id = s: string | |s| == 20
    witness "\0\0\0\0\0\0\0\0\0\0\0\0\0\0\0\0\0\0\0\0"

  const ZERO_ID: Id := "\0\0\0\0\0\0\0\0\0\0\0\0\0\0\0\0\0\0\0\0"

  /** NodeId::from_string */
  function IdFrom(s: string): (id: Id) {
    if |s| == 20 then s else ZERO_ID
  }

  datatype Peer = Peer(ip: string, port: nat)

  datatype Node = Node(id: string, peer: Peer)

  predicate PeerOk(p: Peer) { |p.ip| == 4 && p.port < 65536 }

  predicate NodeOk(n: Node) { |n.id| == 20 && PeerOk(n.peer) }

  // ---------------------------------------------------------------------------
  // Compact encodings
  // ---------------------------------------------------------------------------

  /** A port in network byte order. */
  function PortBytes(port: nat): (s: string)
    requires port < 65536
  {
    [(port / 256) as char, (port % 256) as char]
  }

  function PeerToCompact(p: Peer): (s: string)
    requires PeerOk(p)
  {
    p.ip + PortBytes(p.port)
  }

  function NodeToCompact(n: Node): (s: string)
    requires NodeOk(n)
  {
    n.id + PeerToCompact(n.peer)
  }

  function CompactToPeer(s: string): (p: Peer)
    requires |s| == 6
  {
    Peer(s[..4], s[4] as nat * 256 + s[5] as nat)
  }

  function CompactToNode(s: string): (n: Node)
    requires |s| == 26
  {
    Node(s[..20], CompactToPeer(s[20..]))
  }

  lemma PeerRoundTrip(p: Peer)
    requires PeerOk(p)
    ensures |PeerToCompact(p)| == 6 && CompactToPeer(PeerToCompact(p)) == p
  {
    var s := PeerToCompact(p);
    assert s[..4] == p.ip;
  }

  lemma NodeRoundTrip(n: Node)
    requires NodeOk(n)
    ensures |NodeToCompact(n)| == 26 && CompactToNode(NodeToCompact(n)) == n
  {
    PeerRoundTrip(n.peer);
    var s := NodeToCompact(n);
    assert s[..20] == n.id && s[20..] == PeerToCompact(n.peer);
  }

  function Compacts(nodes: seq<Node>): (r: seq<string>)
    requires forall i :: 0 <= i < |nodes| ==> NodeOk(nodes[i])
    ensures |r| == |nodes| && forall i :: 0 <= i < |nodes| ==> r[i] == NodeToCompact(nodes[i])
  {
    if nodes == [] then [] else [NodeToCompact(nodes[0])] + Compacts(nodes[1..])
  }

  /** nodes_to_compact */
  function NodesToCompact(nodes: seq<Node>): (s: string)
    requires forall i :: 0 <= i < |nodes| ==> NodeOk(nodes[i])
  {
    Concat(Compacts(nodes))
  }

  /** The whole 26-byte records of a node list; what is left over is ignored. */
  function Records(s: string): (r: seq<string>)
    ensures forall i :: 0 <= i < |r| ==> |r[i]| == 26
  {
    if |s| < 26 then [] else [s[..26]] + Records(s[26..])
  }

  function NodesOf(records: seq<string>): (r: seq<Node>)
    requires forall i :: 0 <= i < |records| ==> |records[i]| == 26
    ensures |r| == |records| && forall i :: 0 <= i < |r| ==> r[i] == CompactToNode(records[i])
  {
    if records == [] then [] else [CompactToNode(records[0])] + NodesOf(records[1..])
  }

  /** How often each of `keys` occurs in `all`. */
  function CountsOf<T(==)>(keys: seq<T>, all: seq<T>): (r: seq<nat>)
    ensures |r| == |keys| && forall i :: 0 <= i < |r| ==> r[i] == multiset(all)[keys[i]]
  {
    if keys == [] then [] else [multiset(all)[keys[0]]] + CountsOf(keys[1..], all)
  }

  datatype NodeList = NodeList(nodes: seq<Node>, counts: seq<nat>)

  lemma DistinctRecords(s: string)
    ensures forall i :: 0 <= i < |Lru.Distinct(Records(s))| ==> |Lru.Distinct(Records(s))[i]| == 26
  {
    Lru.DistinctSpec(Records(s));
    var d := Lru.Distinct(Records(s));
    forall i | 0 <= i < |d|
      ensures |d[i]| == 26
    {
      assert d[i] in Records(s);
    }
  }

  /** parse_nodes: the different records in order of first appearance, and how often each occurs. */
  function ParseNodes(s: string): (r: NodeList) {
    DistinctRecords(s);
    var d := Lru.Distinct(Records(s));
    NodeList(NodesOf(d), CountsOf(d, Records(s)))
  }

  lemma NoNodes()
    ensures ParseNodes("") == NodeList([], [])
  {
  }

  /** parse_peers: the six-byte strings of a list. */
  function SixByteStrings(items: seq<BValue>): (r: seq<string>) {
    if items == [] then []
    else
      var last := items[|items| - 1];
      SixByteStrings(items[..|items| - 1]) + if last.BStr? && |last.s| == 6 then [last.s] else []
  }

  // ---------------------------------------------------------------------------
  // Builders
  // ---------------------------------------------------------------------------

  function Query(q: string, args: string, txn: string): (s: string) {
    EncodeDict([Field("a", args), Field("q", EncodeString(q)), Field("t", EncodeString(txn)), Field("y", EncodeString("q"))])
  }

  function Response(r: string, txn: string): (s: string) {
    EncodeDict([Field("r", r), Field("t", EncodeString(txn)), Field("y", EncodeString("r"))])
  }

  function MakePing(txn: string, self: Id): (s: string) {
    Query("ping", EncodeDict([Field("id", EncodeString(self))]), txn)
  }

  function MakeFindNode(txn: string, self: Id, target: Id): (s: string) {
    Query("find_node", EncodeDict([Field("id", EncodeString(self)), Field("target", EncodeString(target))]), txn)
  }

  function MakeGetPeers(txn: string, self: Id, infoHash: Id): (s: string) {
    Query("get_peers", EncodeDict([Field("id", EncodeString(self)), Field("info_hash", EncodeString(infoHash))]), txn)
  }

  function MakeAnnouncePeer(txn: string, self: Id, infoHash: Id, port: nat, token: string, implied: bool): (s: string)
    requires port < 65536
  {
    Query("announce_peer",
          EncodeDict([Field("id", EncodeString(self)), Field("implied_port", EncodeInteger(if implied then 1 else 0)),
                      Field("info_hash", EncodeString(infoHash)), Field("port", EncodeInteger(port)),
                      Field("token", EncodeString(token))]),
          txn)
  }

  function MakeResponse(txn: string, self: Id): (s: string) {
    Response(EncodeDict([Field("id", EncodeString(self))]), txn)
  }

  function MakeNodesResponse(txn: string, self: Id, nodes: seq<Node>): (s: string)
    requires forall i :: 0 <= i < |nodes| ==> NodeOk(nodes[i])
  {
    Response(EncodeDict([Field("id", EncodeString(self)), Field("nodes", EncodeString(NodesToCompact(nodes)))]), txn)
  }

  function EncodedPeers(peers: seq<Peer>): (r: seq<string>)
    requires forall i :: 0 <= i < |peers| ==> PeerOk(peers[i])
  {
    if peers == [] then [] else [EncodeString(PeerToCompact(peers[0]))] + EncodedPeers(peers[1..])
  }

  function MakePeersResponse(txn: string, self: Id, token: string, peers: seq<Peer>): (s: string)
    requires forall i :: 0 <= i < |peers| ==> PeerOk(peers[i])
  {
    Response(EncodeDict([Field("id", EncodeString(self)), Field("token", EncodeString(token)),
                         Field("values", EncodeList(EncodedPeers(peers)))]), txn)
  }

  function MakeNodesResponseGp(txn: string, self: Id, token: string, nodes: seq<Node>): (s: string)
    requires forall i :: 0 <= i < |nodes| ==> NodeOk(nodes[i])
  {
    Response(EncodeDict([Field("id", EncodeString(self)), Field("nodes", EncodeString(NodesToCompact(nodes))),
                         Field("token", EncodeString(token))]), txn)
  }

  function MakeError(txn: string, code: int, msg: string): (s: string) {
    EncodeDict([Field("e", EncodeList([EncodeInteger(code), EncodeString(msg)])), Field("t", EncodeString(txn)),
                Field("y", EncodeString("e"))])
  }

  // ---------------------------------------------------------------------------
  // Parser
  // ---------------------------------------------------------------------------

  datatype Kind = QueryKind | ResponseKind | ErrorKind

  datatype QueryType = Ping | FindNode | GetPeers | AnnouncePeer

  datatype Message = Message(kind: Kind, txn: string, query: Option<QueryType>, sender: Id, target: Id,
                             infoHash: Option<Id>, port: nat, token: string, implied: bool,
                             nodes: seq<Node>, counts: seq<nat>, values: seq<string>,
                             errorCode: int, errorMsg: string)

  function Blank(kind: Kind, txn: string): (m: Message) {
    Message(kind, txn, None, ZERO_ID, ZERO_ID, None, 0, "", false, [], [], [], 0, "")
  }

  /** bstring, binteger, bdict and blist: a missing key or another type gives the default. */
  function StringAt(d: seq<Entry>, key: string): (s: string) {
    match At(d, key) case Some(BStr(s)) => s case _ => ""
  }

  function IntegerAt(d: seq<Entry>, key: string): (n: int) {
    match At(d, key) case Some(BInt(n)) => n case _ => 0
  }

  function DictAt(d: seq<Entry>, key: string): (r: Option<seq<Entry>>) {
    match At(d, key) case Some(BDict(es)) => Some(es) case _ => None
  }

  function ListAt(d: seq<Entry>, key: string): (r: seq<BValue>) {
    match At(d, key) case Some(BList(items)) => items case _ => []
  }

  /** The conversions of int64 to uint16_t and to int. */
  function ToUint16(n: int): (r: nat) { n % 0x1_0000 }

  function ToInt32(n: int): (r: int) { (n + 0x8000_0000) % 0x1_0000_0000 - 0x8000_0000 }

  function QueryMessage(txn: string, q: string, a: seq<Entry>): (m: Option<Message>) {
    var base := Blank(QueryKind, txn).(sender := IdFrom(StringAt(a, "id")));
    if q == "ping" then Some(base.(query := Some(Ping)))
    else if q == "find_node" then Some(base.(query := Some(FindNode), target := IdFrom(StringAt(a, "target"))))
    else if q == "get_peers" || q == "announce_peer" then
      var hash := StringAt(a, "info_hash");
      if |hash| != 20 then None
      else if q == "get_peers" then Some(base.(query := Some(GetPeers), infoHash := Some(hash)))
      else Some(base.(query := Some(AnnouncePeer), infoHash := Some(hash), token := StringAt(a, "token"),
                      port := ToUint16(IntegerAt(a, "port")), implied := IntegerAt(a, "implied_port") != 0))
    else None
  }

  function ResponseMessage(txn: string, r: seq<Entry>): (m: Message) {
    var list := ParseNodes(StringAt(r, "nodes"));
    Blank(ResponseKind, txn).(sender := IdFrom(StringAt(r, "id")), nodes := list.nodes, counts := list.counts,
                              token := StringAt(r, "token"), values := SixByteStrings(ListAt(r, "values")))
  }

  function ErrorMessage(txn: string, e: seq<BValue>): (m: Message) {
    if |e| < 2 then Blank(ErrorKind, txn)
    else Blank(ErrorKind, txn).(errorCode := if e[0].BInt? then ToInt32(e[0].n) else 0,
                                errorMsg := if e[1].BStr? then e[1].s else "")
  }

  function MessageOf(root: seq<Entry>): (m: Option<Message>) {
    var txn, y := StringAt(root, "t"), StringAt(root, "y");
    if y == "q" then
      match DictAt(root, "a") case None => None case Some(a) => QueryMessage(txn, StringAt(root, "q"), a)
    else if y == "r" then
      match DictAt(root, "r") case None => None case Some(r) => Some(ResponseMessage(txn, r))
    else if y == "e" then Some(ErrorMessage(txn, ListAt(root, "e")))
    else None
  }

  /** What parse_krpc yields; it has no defined result when a string read leaves the buffer. */
  datatype Decoded = Got(message: Message) | Refused | Undefined

  function FromOption(m: Option<Message>): (r: Decoded) {
    match m case Some(msg) => Got(msg) case None => Refused
  }

  /** parse_krpc; bytes after the dictionary are ignored. */
  function ParseKrpc(data: string): (r: Decoded) {
    match ParseValue(data, 0)
    case Ok(Step(BDict(root), _)) => FromOption(MessageOf(root))
    case Ok(_) => Refused
    case Err(e) => if e.OutsideBuffer? then Undefined else Refused
  }
}
