/** `NetworkArchitecture`: a diagram of seven infrastructure nodes joined by
    request edges and, drawn slightly apart, the reverse response edges.
    Positions are percentages of the drawing area. */
module NetworkArchitecture {
  import opened Seqs

  datatype Side = Left | Right | Top

  datatype Node = Node(id: string, title: string, description: string, position: Side, color: string, details: string)

  datatype Connection = Connection(from: string, to: string, labelText: string, isResponse: bool)

  datatype Point = Point(x: int, y: int)

  /** The node ids, shared by both tables. */
  const ClientId: string := "client"
  const CdnId: string := "cdn"
  const LoadBalancerId: string := "load-balancer"
  const WebServersId: string := "web-servers"
  const AppServersId: string := "app-servers"
  const DatabaseId: string := "database"
  const CacheId: string := "cache"

  /** The hard-coded `nodes` list. */
  const Nodes: seq<Node> := [
    Node(ClientId, "Client", "Web Browser", Left, "bg-blue-500",
      "End user browser with modern features and security protocols"),
    Node(CdnId, "CDN", "Content Delivery Network", Top, "bg-green-500",
      "Distributed network of servers for fast content delivery"),
    Node(LoadBalancerId, "Load Balancer", "Traffic Distribution", Top, "bg-purple-500",
      "Distributes incoming traffic across multiple servers"),
    Node(WebServersId, "Web Servers", "Nginx/Apache", Right, "bg-yellow-500",
      "High-performance web servers with SSL/TLS support"),
    Node(AppServersId, "Application Servers", "Node.js/Python", Right, "bg-red-500",
      "Application logic and business rules processing"),
    Node(DatabaseId, "Database", "PostgreSQL/MySQL", Right, "bg-indigo-500",
      "Relational database for structured data storage"),
    Node(CacheId, "Cache", "Redis/Memcached", Right, "bg-pink-500",
      "In-memory data store for fast data retrieval")
  ]

  /** The hard-coded `connections` list: six requests, then six responses. */
  const Connections: seq<Connection> := [
    Connection(ClientId, CdnId, "HTTPS Request", false),
    Connection(CdnId, LoadBalancerId, "SSL/TLS", false),
    Connection(LoadBalancerId, WebServersId, "HTTP", false),
    Connection(WebServersId, AppServersId, "Proxy", false),
    Connection(AppServersId, DatabaseId, "SQL Query", false),
    Connection(AppServersId, CacheId, "Cache Check", false),
    Connection(CacheId, AppServersId, "Cache Response", true),
    Connection(DatabaseId, AppServersId, "Query Result", true),
    Connection(AppServersId, WebServersId, "Processed Data", true),
    Connection(WebServersId, LoadBalancerId, "HTTP Response", true),
    Connection(LoadBalancerId, CdnId, "Content Delivery", true),
    Connection(CdnId, ClientId, "HTTPS Response", true)
  ]

  /** `getNodePosition(node, isResponse)`: where an edge meets the node. */
  function NodePosition(node: Node, isResponse: bool): (p: Point)
    ensures 15 <= p.x <= 75 && 25 <= p.y <= 75
    ensures p.x == 40 <==> node.position == Top
  {
    var x := if node.position == Left then 15 else if node.position == Right then 75 else 40;
    assert x == 40 <==> node.position.Top?;
    var y := if node.position == Top then 25
             else if node.id == ClientId then 50
             else if node.id == DatabaseId || node.id == CacheId then 75
             else 50;
    if isResponse then
      Point(x + (if node.position == Right then -5 else if node.position == Left then 5 else 0),
            y + (if node.position == Top then 5 else 0))
    else
      Point(x, y)
  }

  /** The response shift: responses are drawn 5 units towards the middle of
      the diagram (below, for top nodes), so a request and its response never
      share an anchor. */
  lemma NodePositionSpec(node: Node)
    ensures var p, q := NodePosition(node, false), NodePosition(node, true);
      && q.x - p.x == (match node.position case Left => 5 case Right => -5 case Top => 0)
      && q.y - p.y == (if node.position == Top then 5 else 0)
      && q != p
  {
  }

  /** Of the seven nodes, exactly three pairs share an anchor, for requests
      and for responses alike: the two top nodes, the web and application
      servers, and the database and the cache. */
  lemma SharedAnchors(isResponse: bool)
    ensures forall i, j :: 0 <= i < j < |Nodes| ==>
      (NodePosition(Nodes[i], isResponse) == NodePosition(Nodes[j], isResponse)
       <==> (i == 1 && j == 2) || (i == 3 && j == 4) || (i == 5 && j == 6))
  {
  }

  /** `nodes.find(n => n.id === id)`: the first node with that id. */
  function FindNode(nodes: seq<Node>, id: string): (r: Option<Node>)
    ensures r.Some? ==> r.value.id == id && exists k :: (0 <= k < |nodes| && nodes[k] == r.value
      && forall j :: 0 <= j < k ==> nodes[j].id != id)
    ensures r.None? <==> forall n :: n in nodes ==> n.id != id
  {
    if nodes == [] then None
    else if nodes[0].id == id then Some(nodes[0])
    else FindNode(nodes[1..], id)
  }

  /** A drawn edge: its two anchors and where its label is centred. */
  datatype Edge = Edge(from: Point, to: Point, labelX: real, labelY: real)

  /** The label position `((from.x + to.x) / 2, (from.y + to.y) / 2)`. */
  function Midpoint(a: int, b: int): (m: real)
    ensures m - a as real == b as real - m
  {
    (a + b) as real / 2.0
  }

  /** The geometry of one connection, or `None` (the `return null` of the
      render) when an endpoint names no node. */
  function EdgeOf(c: Connection): (r: Option<Edge>)
    ensures r.None? <==> FindNode(Nodes, c.from).None? || FindNode(Nodes, c.to).None?
  {
    match (FindNode(Nodes, c.from), FindNode(Nodes, c.to))
    case (Some(f), Some(t)) =>
      var a, b := NodePosition(f, c.isResponse), NodePosition(t, c.isResponse);
      Some(Edge(a, b, Midpoint(a.x, b.x), Midpoint(a.y, b.y)))
    case _ => None
  }

  /** The ids the connections use. */
  const ConnectionIds: set<string> :=
    {ClientId, CdnId, LoadBalancerId, WebServersId, AppServersId, DatabaseId, CacheId}

  /** Every id a connection uses belongs to a node. */
  lemma ConnectionIdsAreNodes()
    ensures forall i :: 0 <= i < |Connections| ==> Connections[i].from in ConnectionIds && Connections[i].to in ConnectionIds
    ensures forall id :: id in ConnectionIds ==> exists n :: n in Nodes && n.id == id
  {
    assert Nodes[0].id == ClientId && Nodes[1].id == CdnId && Nodes[2].id == LoadBalancerId;
    assert Nodes[3].id == WebServersId && Nodes[4].id == AppServersId;
    assert Nodes[5].id == DatabaseId && Nodes[6].id == CacheId;
  }

  /** Every connection names existing nodes, so the `return null` branch is
      never taken and every edge is drawn. */
  lemma AllEdgesDrawn()
    ensures forall i :: 0 <= i < |Connections| ==> EdgeOf(Connections[i]).Some?
  {
    ConnectionIdsAreNodes();
  }

  /** The six responses retrace the six requests backwards: the connection at
      `k` (from 6 on) reverses the one at `11 - k`. */
  lemma ResponsesReverseRequests()
    ensures |Connections| == 12
    ensures forall k :: 0 <= k < 6 ==> !Connections[k].isResponse
    ensures forall k :: 6 <= k < 12 ==>
      (Connections[k].isResponse
       && Connections[k].from == Connections[11 - k].to && Connections[k].to == Connections[11 - k].from)
  {
  }

  /** The React key `${from}-${to}` of an edge. */
  function EdgeKey(c: Connection): string
  {
    c.from + "-" + c.to
  }

  /** The keys the edges get, written out. */
  const EdgeKeyTable: seq<string> := [
    "client-cdn", "cdn-load-balancer", "load-balancer-web-servers", "web-servers-app-servers",
    "app-servers-database", "app-servers-cache", "cache-app-servers", "database-app-servers",
    "app-servers-web-servers", "web-servers-load-balancer", "load-balancer-cdn", "cdn-client"]

  lemma EdgeKeysAsWritten0()
    ensures forall i :: 0 <= i < 3 ==> EdgeKey(Connections[i]) == EdgeKeyTable[i]
  {
    assert EdgeKey(Connections[0]) == EdgeKeyTable[0];
    assert EdgeKey(Connections[1]) == EdgeKeyTable[1];
    assert EdgeKey(Connections[2]) == EdgeKeyTable[2];
  }

  lemma EdgeKeysAsWritten1()
    ensures forall i :: 3 <= i < 6 ==> EdgeKey(Connections[i]) == EdgeKeyTable[i]
  {
    assert EdgeKey(Connections[3]) == EdgeKeyTable[3];
    assert EdgeKey(Connections[4]) == EdgeKeyTable[4];
    assert EdgeKey(Connections[5]) == EdgeKeyTable[5];
  }

  lemma EdgeKeysAsWritten2()
    ensures forall i :: 6 <= i < 9 ==> EdgeKey(Connections[i]) == EdgeKeyTable[i]
  {
    assert EdgeKey(Connections[6]) == EdgeKeyTable[6];
    assert EdgeKey(Connections[7]) == EdgeKeyTable[7];
    assert EdgeKey(Connections[8]) == EdgeKeyTable[8];
  }

  lemma EdgeKeysAsWritten3()
    ensures forall i :: 9 <= i < 12 ==> EdgeKey(Connections[i]) == EdgeKeyTable[i]
  {
    assert EdgeKey(Connections[9]) == EdgeKeyTable[9];
    assert EdgeKey(Connections[10]) == EdgeKeyTable[10];
    assert EdgeKey(Connections[11]) == EdgeKeyTable[11];
  }

  /** The keys of the edges, spelt out. */
  lemma EdgeKeysAsWritten()
    ensures |EdgeKeyTable| == |Connections|
    ensures forall i :: 0 <= i < |Connections| ==> EdgeKey(Connections[i]) == EdgeKeyTable[i]
  {
    EdgeKeysAsWritten0();
    EdgeKeysAsWritten1();
    EdgeKeysAsWritten2();
    EdgeKeysAsWritten3();
  }

  lemma EdgeKeyTableDistinct()
    ensures Distinct(EdgeKeyTable)
  {
  }

  /** The keys of the edges are pairwise different. Distinct endpoint pairs
      alone would not ensure this, since the ids themselves contain '-'. */
  lemma EdgeKeysDistinct()
    ensures forall i, j :: 0 <= i < j < |Connections| ==> EdgeKey(Connections[i]) != EdgeKey(Connections[j])
  {
    EdgeKeysAsWritten();
    EdgeKeyTableDistinct();
  }

  /** The node ids are pairwise different. */
  lemma NodeIdsDistinct()
    ensures forall i, j :: 0 <= i < j < |Nodes| ==> Nodes[i].id != Nodes[j].id
  {
  }

  /** With distinct ids, `find` by a node's id returns that node. */
  lemma {:induction false} FindNodeById(nodes: seq<Node>, i: int)
    requires forall a, b :: 0 <= a < b < |nodes| ==> nodes[a].id != nodes[b].id
    requires 0 <= i < |nodes|
    ensures FindNode(nodes, nodes[i].id) == Some(nodes[i])
  {
    if i > 0 {
      FindNodeById(nodes[1..], i - 1);
    }
  }

  /** A request between two nodes that share an anchor has no length. */
  lemma {:induction false} EdgeBetweenSharedAnchors(i: int, f: int, t: int)
    requires 0 <= i < |Connections| && 0 <= f < |Nodes| && 0 <= t < |Nodes|
    requires Connections[i].from == Nodes[f].id && Connections[i].to == Nodes[t].id
    requires NodePosition(Nodes[f], Connections[i].isResponse) == NodePosition(Nodes[t], Connections[i].isResponse)
    ensures EdgeOf(Connections[i]).Some? && EdgeOf(Connections[i]).value.from == EdgeOf(Connections[i]).value.to
  {
    NodeIdsDistinct();
    FindNodeById(Nodes, f);
    FindNodeById(Nodes, t);
  }

  /** The request from the CDN to the load balancer is drawn with no length:
      both top nodes share one anchor. */
  lemma ZeroLengthTopEdge()
    ensures EdgeOf(Connections[1]).Some? && EdgeOf(Connections[1]).value.from == EdgeOf(Connections[1]).value.to
  {
    EdgeBetweenSharedAnchors(1, 1, 2);
  }

  /** So is the request from the web servers to the application servers,
      which share the right-hand anchor at mid height. */
  lemma ZeroLengthServerEdge()
    ensures EdgeOf(Connections[3]).Some? && EdgeOf(Connections[3]).value.from == EdgeOf(Connections[3]).value.to
  {
    EdgeBetweenSharedAnchors(3, 3, 4);
  }

  /** The label of the animation button. */
  function AnimateLabel(isAnimating: bool): (text: string)
    ensures text == "Stop Animation" <==> isAnimating
    ensures !isAnimating ==> text == "Animate Flow"
  {
    if isAnimating then "Stop Animation" else "Animate Flow"
  }

  /** The component's state. */
  class ArchitectureView {
    var isAnimating: bool
    var showDetails: bool

    constructor ()
      ensures !isAnimating && !showDetails
    {
      isAnimating, showDetails := false, false;
    }

    /** `handleAnimate` */
    method HandleAnimate()
      modifies this
      ensures isAnimating == !old(isAnimating) && showDetails == old(showDetails)
    {
      isAnimating := !isAnimating;
    }

    /** A click on any node: the details of every node show or hide together. */
    method ClickNode()
      modifies this
      ensures showDetails == !old(showDetails) && isAnimating == old(isAnimating)
    {
      showDetails := !showDetails;
    }
  }
}
