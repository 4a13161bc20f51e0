/** The graph of the topology generator: nodes and edges as shared objects, adjacency and
    incidence lists by node index, and depth-first search. */
module Graphs {
  import opened Reachability
  import S = Sequences

  datatype Color = YELLOW | BLUE | RED | WHITE | BLACK | PURPLE | CYAN | PINK | GRAY

  function Whites(color: seq<Color>): set<nat> {
    set v: nat | v < |color| && color[v] == WHITE
  }

  /** The colours and parents of a search. */
  datatype Marks = Marks(color: seq<Color>, pi: seq<int>)

  ghost predicate SameSize(adj: Adjacency, a: Marks, b: Marks) {
    |adj| == |a.color| == |b.color| == |a.pi| == |b.pi|
  }

  /** `order` has been discovered from `u`, through nodes of `within`: no node twice, all
      reachable, each but the first with its parent before it. */
  ghost predicate Discovered(adj: Adjacency, within: set<nat>, u: nat, pi: seq<int>, order: seq<nat>) {
    && order != [] && order[0] == u && S.NoRepeats(order)
    && (forall v :: v in order ==> v in within && v < |adj| && Reaches(adj, within, u, v))
    && ParentsFirst(adj, pi, order)
  }

  /** `u` is being searched, and the first `i` of its neighbours are done with. */
  ghost predicate Searching(adj: Adjacency, start: Marks, u: nat, now: Marks, order: seq<nat>, i: nat) {
    var within := Whites(start.color);
    && SameSize(adj, start, now) && u < |adj| && i <= |adj[u]|
    && Discovered(adj, within, u, now.pi, order)
    && (forall v: nat :: v < |adj| ==>
          now.color[v] == if v == u then GRAY else if v in order then BLACK else start.color[v])
    && (forall v: nat :: v < |adj| && (v !in order || v == u) ==> now.pi[v] == start.pi[v])
    && (forall x :: x in order && x != u ==> forall y :: y in adj[x] && y in within ==> y in order)
    && (forall j :: 0 <= j < i && adj[u][j] in within ==> adj[u][j] in order)
  }

  /** The search from `u` is over. */
  ghost predicate Searched(adj: Adjacency, start: Marks, u: nat, now: Marks, order: seq<nat>) {
    && SameSize(adj, start, now)
    && Discovered(adj, Whites(start.color), u, now.pi, order)
    && Closed(adj, Whites(start.color), S.Elements(order))
    && (forall v: nat :: v < |adj| ==> now.color[v] == if v in order then BLACK else start.color[v])
    && (forall v: nat :: v < |adj| && (v !in order || v == u) ==> now.pi[v] == start.pi[v])
  }

  // ---- going on from a node to one of its neighbours ----

  lemma GraftFront(adj: Adjacency, before: seq<int>, order: seq<nat>, pi: seq<int>, found: seq<nat>, k: nat)
    requires 0 < k < |order| && HasParent(adj, before, order, k) && |pi| == |before|
    requires forall w :: w in order && w < |pi| ==> pi[w] == before[w]
    ensures HasParent(adj, pi, order + found, k)
  {
    var j :| 0 <= j < k && order[j] < |adj| && before[order[k]] == order[j] && order[k] in adj[order[j]];
    var all := order + found;
    assert all[k] == order[k] && all[j] == order[j];
    assert order[k] in order;
  }

  lemma GraftBack(adj: Adjacency, u: nat, order: seq<nat>, pi: seq<int>, found: seq<nat>, k: nat)
    requires order != [] && order[0] == u && u < |adj|
    requires |order| <= k < |order| + |found| && ParentsFirst(adj, pi, found)
    requires found[0] in adj[u] && found[0] < |pi| && pi[found[0]] == u
    ensures HasParent(adj, pi, order + found, k)
  {
    var all := order + found;
    var i := k - |order|;
    if i == 0 {
      assert all[k] == found[0] && all[0] == u;
    } else {
      assert HasParent(adj, pi, found, i);
      var j :| 0 <= j < i && found[j] < |adj| && pi[found[i]] == found[j] && found[i] in adj[found[j]];
      assert all[k] == found[i] && all[|order| + j] == found[j];
    }
  }

  /** A search that goes on from `u` to the undiscovered node `v` and discovers what `v`
      reaches there has discovered both parts together. */
  lemma Graft(adj: Adjacency, within: set<nat>, u: nat, before: seq<int>, order: seq<nat>,
              inner: set<nat>, v: nat, pi: seq<int>, found: seq<nat>)
    requires Discovered(adj, within, u, before, order) && Discovered(adj, inner, v, pi, found)
    requires inner <= within && (forall w :: w in order ==> w !in inner)
    requires u < |adj| && v in adj[u] && v < |pi| == |before| && pi[v] == u
    requires forall w :: w in order && w < |pi| ==> pi[w] == before[w]
    ensures Discovered(adj, within, u, pi, order + found)
  {
    var all := order + found;
    forall w | w in all ensures w in within && w < |adj| && Reaches(adj, within, u, w) {
      if w in found {
        assert u in order;
        ReachesPrepend(adj, within, inner, u, v, w);
      } else {
        assert w in order;
      }
    }
    forall k | 0 < k < |all| ensures HasParent(adj, pi, all, k) {
      if k < |order| {
        GraftFront(adj, before, order, pi, found, k);
      } else {
        GraftBack(adj, u, order, pi, found, k);
      }
    }
    forall i, j | 0 <= i < j < |all| ensures all[i] != all[j] {
      if i < |order| <= j {
        assert all[i] in order && all[j] in found;
      } else if |order| <= i {
        assert all[i] == found[i - |order|] && all[j] == found[j - |order|];
      }
    }
  }

  lemma SearchFrom(adj: Adjacency, start: Marks, u: nat)
    requires SameSize(adj, start, start) && u < |adj| && start.color[u] == WHITE
    ensures Searching(adj, start, u, Marks(start.color[u := GRAY], start.pi), [u], 0)
  {
    ReachesSelf(adj, Whites(start.color), u);
  }

  lemma SkipNeighbour(adj: Adjacency, start: Marks, u: nat, now: Marks, order: seq<nat>, i: nat)
    requires Searching(adj, start, u, now, order, i) && i < |adj[u]|
    requires adj[u][i] < |adj| && now.color[adj[u][i]] != WHITE
    ensures Searching(adj, start, u, now, order, i + 1)
  {}

  /** The nodes still WHITE are those of the start less the discovered ones. */
  lemma StillWhite(adj: Adjacency, start: Marks, u: nat, now: Marks, order: seq<nat>, i: nat)
    requires Searching(adj, start, u, now, order, i)
    ensures Whites(now.color) == Whites(start.color) - S.Elements(order)
    ensures u in S.Elements(order) && u in Whites(start.color)
  {
    assert order[0] in order;
  }

  lemma SearchNeighbour(adj: Adjacency, start: Marks, u: nat, now: Marks, order: seq<nat>, i: nat,
                        next: Marks, found: seq<nat>)
    requires Searching(adj, start, u, now, order, i) && i < |adj[u]|
    requires adj[u][i] < |adj| && now.color[adj[u][i]] == WHITE
    requires Searched(adj, Marks(now.color, now.pi[adj[u][i] := u]), adj[u][i], next, found)
    ensures Searching(adj, start, u, next, order + found, i + 1)
  {
    var v, all := adj[u][i], order + found;
    var within, inner := Whites(start.color), Whites(now.color);
    StillWhite(adj, start, u, now, order, i);
    Graft(adj, within, u, now.pi, order, inner, v, next.pi, found);
    assert found[0] in found;
    forall x | x in all && x != u ensures forall y :: y in adj[x] && y in within ==> y in all {
      if x in found {
        assert x in S.Elements(found);
        forall y | y in adj[x] && y in within ensures y in all {
          if y !in order {
            assert y in inner;
            assert y in S.Elements(found);
          }
        }
      } else {
        assert x in order;
      }
    }
  }

  lemma SearchOver(adj: Adjacency, start: Marks, u: nat, now: Marks, order: seq<nat>)
    requires u < |adj| && Searching(adj, start, u, now, order, |adj[u]|)
    ensures Searched(adj, start, u, Marks(now.color[u := BLACK], now.pi), order)
  {
    var within := Whites(start.color);
    assert order[0] in order;
    forall x | x in S.Elements(order) && x < |adj|
      ensures forall y :: y in adj[x] && y in within ==> y in S.Elements(order)
    {
      if x == u {
        forall y | y in adj[u] && y in within ensures y in order {
          var j :| 0 <= j < |adj[u]| && adj[u][j] == y;
        }
      }
    }
  }

  /** Router or AS level: which of two configuration classes a node or an edge has. Both have
      the same roles. */
  datatype Kind = ROUTER | AS

  datatype NodeRole = N_NONE | N_LEAF | N_BORDER | N_STUB | N_BACKBONE

  datatype EdgeRole = E_NONE | E_LEAF | E_STUB | E_BORDER | E_BACKBONE

  class BriteNode {
    const id: nat
    const outDegree: int
    const kind: Kind
    var role: NodeRole

    constructor (id: nat, outDegree: int, kind: Kind)
      ensures this.id == id && this.outDegree == outDegree && this.kind == kind && role == N_NONE
    {
      this.id, this.outDegree, this.kind, role := id, outDegree, kind, N_NONE;
    }

    /** The role read through a configuration of kind `k`. */
    function RoleAs(k: Kind): NodeRole
      requires k == kind
      reads this
    {
      role
    }
  }

  class Edge {
    const src: BriteNode
    const dst: BriteNode
    const kind: Kind
    var role: EdgeRole

    constructor (src: BriteNode, dst: BriteNode, kind: Kind)
      ensures this.src == src && this.dst == dst && this.kind == kind && role == E_NONE
    {
      this.src, this.dst, this.kind, role := src, dst, kind, E_NONE;
    }

    /** Sets the role through a configuration of kind `k`. */
    method SetRole(k: Kind, l: EdgeRole)
      requires k == kind
      modifies this
      ensures role == l
    {
      role := l;
    }
  }

  /** An edge once for each of its ends at node `i`. */
  function EndsOf(edge: Edge, i: nat): seq<Edge> {
    (if edge.dst.id == i then [edge] else []) + (if edge.src.id == i then [edge] else [])
  }

  class Graph {
    var numNodes: nat
    var adjList: Adjacency
    var nodes: seq<BriteNode?>
    var edges: seq<Edge>
    var numEdges: nat
    var incList: seq<seq<Edge>>

    ghost predicate Valid()
      reads this
    {
      && 1 <= numNodes == |adjList| && WellFormed(adjList)
      && |nodes| == |incList| == numNodes
      && numEdges == |edges|
    }

    constructor (n: nat)
      requires 1 <= n
      ensures Valid() && numNodes == n && edges == []
      ensures forall u :: 0 <= u < n ==> adjList[u] == [] && incList[u] == [] && nodes[u] == null
    {
      numNodes, numEdges := n, 0;
      nodes, edges := seq(n, _ => null), [];
      adjList, incList := seq(n, _ => []), seq(n, _ => []);
    }

    method AddNode(node: BriteNode, index: nat)
      requires Valid() && index < numNodes
      modifies this`nodes
      ensures Valid() && nodes == old(nodes)[index := node]
    {
      nodes := nodes[index := node];
    }

    method AddEdge(edge: Edge)
      requires Valid()
      modifies this`edges, this`numEdges
      ensures Valid() && edges == old(edges) + [edge]
    {
      edges := edges + [edge];
      numEdges := numEdges + 1;
    }

    /** Puts the edge at the front of the list of its source and then of its destination. */
    method AddIncListNode(edge: Edge)
      requires Valid() && edge.src.id < numNodes && edge.dst.id < numNodes
      modifies this`incList
      ensures Valid()
      ensures forall i :: 0 <= i < numNodes ==> incList[i] == EndsOf(edge, i) + old(incList[i])
    {
      var n1, n2 := edge.src.id, edge.dst.id;
      incList := incList[n1 := [edge] + incList[n1]];
      incList := incList[n2 := [edge] + incList[n2]];
    }

    /** Puts the edge at the front of the list of `n1`. */
    method AddAdjListNode(n1: nat, n2: nat)
      requires Valid() && n1 < numNodes && n2 < numNodes
      modifies this`adjList
      ensures Valid() && adjList == old(adjList)[n1 := [n2] + old(adjList)[n1]]
    {
      adjList := adjList[n1 := [n2] + adjList[n1]];
    }

    method AdjListFind(n1: nat, n2: nat) returns (found: bool)
      requires Valid() && n1 < numNodes
      ensures found <==> n2 in adjList[n1]
    {
      for i := 0 to |adjList[n1]|
        invariant n2 !in adjList[n1][..i]
      {
        if adjList[n1][i] == n2 {
          return true;
        }
      }
      return false;
    }

    /** The recursive search. `order` is the order in which it discovers nodes. */
    method DFS(color: array<Color>, pi: array<int>, u: nat) returns (ghost order: seq<nat>)
      requires Valid() && color.Length == pi.Length == numNodes && u < numNodes && color[u] == WHITE
      modifies color, pi
      ensures Searched(adjList, old(Marks(color[..], pi[..])), u, Marks(color[..], pi[..]), order)
      decreases Whites(color[..])
    {
      ghost var start := Marks(color[..], pi[..]);
      SearchFrom(adjList, start, u);
      color[u] := GRAY;
      assert color[..] == start.color[u := GRAY];
      order := [u];
      for i := 0 to |adjList[u]|
        invariant Searching(adjList, start, u, Marks(color[..], pi[..]), order, i)
      {
        var v := adjList[u][i];
        ghost var now := Marks(color[..], pi[..]);
        if color[v] == WHITE {
          StillWhite(adjList, start, u, now, order, i);
          pi[v] := u;
          assert pi[..] == now.pi[v := u];
          ghost var found := DFS(color, pi, v);
          SearchNeighbour(adjList, start, u, now, order, i, Marks(color[..], pi[..]), found);
          order := order + found;
        } else {
          SkipNeighbour(adjList, start, u, now, order, i);
        }
      }
      ghost var now := Marks(color[..], pi[..]);
      SearchOver(adjList, start, u, now, order);
      color[u] := BLACK;
      assert color[..] == now.color[u := BLACK];
    }

    /** Whether a search from node 0 leaves no node WHITE, that is, whether every node is
        reachable from node 0. */
    method IsConnected() returns (connected: bool)
      requires Valid()
      ensures connected <==> forall v: nat :: v < numNodes ==> Reaches(adjList, Below(numNodes), 0, v)
    {
      var color := new Color[numNodes](_ => YELLOW);
      var pi := new int[numNodes](_ => 0);
      for i := 0 to numNodes
        invariant forall j :: 0 <= j < i ==> color[j] == WHITE
      {
        color[i] := WHITE;
      }
      ghost var start := Marks(color[..], pi[..]);
      ghost var order := DFS(color, pi, 0);
      ghost var end := Marks(color[..], pi[..]);
      NoneLeftWhite(adjList, start, 0, end, order);
      for i := 0 to numNodes
        invariant color[..] == end.color
        invariant forall j :: 0 <= j < i ==> end.color[j] != WHITE
      {
        if color[i] == WHITE {
          return false;
        }
      }
      return true;
    }
  }

  /** A search with all nodes WHITE at the start leaves none WHITE when it reaches all. */
  lemma NoneLeftWhite(adj: Adjacency, start: Marks, u: nat, now: Marks, order: seq<nat>)
    requires Searched(adj, start, u, now, order)
    requires forall v: nat :: v < |adj| ==> start.color[v] == WHITE
    ensures (forall v: nat :: v < |adj| ==> now.color[v] != WHITE)
       <==> (forall v: nat :: v < |adj| ==> Reaches(adj, Below(|adj|), u, v))
  {
    assert Whites(start.color) == Below(|adj|);
    WhitePath(adj, start, u, now, order);
  }

  /** The white-path theorem: a search from a WHITE node turns BLACK exactly the nodes that
      are reached from it through nodes WHITE at the start, leaves every other node as it was,
      and gives each of them but itself a parent among them, one edge away. */
  lemma WhitePath(adj: Adjacency, start: Marks, u: nat, now: Marks, order: seq<nat>)
    requires Searched(adj, start, u, now, order)
    ensures forall v: nat :: v < |adj| ==>
              now.color[v] == if Reaches(adj, Whites(start.color), u, v) then BLACK else start.color[v]
    ensures forall v: nat :: v < |adj| && v != u && Reaches(adj, Whites(start.color), u, v) ==>
              var p := now.pi[v]; 0 <= p < |adj| && v in adj[p] && Reaches(adj, Whites(start.color), u, p)
    ensures forall v: nat :: v < |adj| && !Reaches(adj, Whites(start.color), u, v) ==> now.pi[v] == start.pi[v]
  {
    var within := Whites(start.color);
    assert order[0] in order;
    ExploredIsReachable(adj, within, S.Elements(order), u);
    assert forall v: nat :: v in order <==> v in S.Elements(order);
    forall v: nat | v < |adj| && v != u && Reaches(adj, within, u, v)
      ensures var p := now.pi[v]; 0 <= p < |adj| && v in adj[p] && Reaches(adj, within, u, p)
    {
      assert v in S.Elements(order);
      var k :| 0 <= k < |order| && order[k] == v;
      assert HasParent(adj, now.pi, order, k);
      var j :| 0 <= j < k && order[j] < |adj| && now.pi[order[k]] == order[j] && order[k] in adj[order[j]];
      assert order[j] in order;
    }
  }

  /** Going up the parents from any node found leads to the start of the search in fewer steps
      than there are nodes. */
  lemma ParentsLeadToStart(adj: Adjacency, start: Marks, u: nat, now: Marks, order: seq<nat>, v: nat)
    returns (steps: nat)
    requires Searched(adj, start, u, now, order) && Reaches(adj, Whites(start.color), u, v)
    ensures steps < |adj| && Ancestor(now.pi, v, steps) == u
  {
    assert order[0] in order;
    ExploredIsReachable(adj, Whites(start.color), S.Elements(order), u);
    assert v in S.Elements(order);
    var k :| 0 <= k < |order| && order[k] == v;
    steps := AncestorIsRoot(adj, now.pi, order, k);
    OrderBound(order, |adj|);
  }

  /** When edges go both ways, reaching all nodes from node 0 is the same as reaching every
      node from every node. */
  lemma ConnectedFromEverywhere(adj: Adjacency)
    requires Symmetric(adj) && WellFormed(adj) && adj != []
    ensures (forall v: nat :: v < |adj| ==> Reaches(adj, Below(|adj|), 0, v))
       <==> (forall u: nat, v: nat :: u < |adj| && v < |adj| ==> Reaches(adj, Below(|adj|), u, v))
  {
    var all := Below(|adj|);
    if forall v: nat :: v < |adj| ==> Reaches(adj, all, 0, v) {
      forall u: nat, v: nat | u < |adj| && v < |adj| ensures Reaches(adj, all, u, v) {
        assert Reaches(adj, all, 0, u);
        var p :| IsPath(adj, all, p, 0, u);
        ReachesSymmetric(adj, all, p, 0, u);
        ReachesTransitive(adj, all, u, 0, v);
      }
    }
  }
}
