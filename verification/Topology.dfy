/** Classification of the nodes and edges of a topology by four passes over them. */
module Topologies {
  import opened Graphs
  import S = Sequences

  // ---- what the passes look at, as facts about edges and sets ----

  /** The incidences a pass over `edges` adds for node `i`: the last edge first. */
  function Incident(edges: seq<Edge>, i: nat): seq<Edge> {
    if edges == [] then []
    else EndsOf(edges[|edges| - 1], i) + Incident(edges[..|edges| - 1], i)
  }

  ghost function StubCount(edges: seq<Edge>, stubs: set<Edge>): nat {
    if edges == [] then 0 else (if edges[0] in stubs then 1 else 0) + StubCount(edges[1..], stubs)
  }

  /** The role of a node by the number of stub edges at it. */
  function NodeRoleFor(leaf: bool, stubLinks: nat): (r: NodeRole)
    ensures r == N_LEAF <==> leaf
    ensures r == N_STUB <==> !leaf && stubLinks == 1
    ensures r == N_BORDER <==> !leaf && stubLinks > 1
    ensures r == N_BACKBONE <==> !leaf && stubLinks == 0
  {
    if leaf then N_LEAF else if stubLinks == 0 then N_BACKBONE else if stubLinks == 1 then N_STUB else N_BORDER
  }

  function EdgeRoleFor(stub: bool, src: NodeRole, dst: NodeRole): (r: EdgeRole)
    ensures r == E_STUB <==> stub
    ensures r == E_BORDER <==> !stub && {src, dst} == {N_STUB, N_BORDER}
    ensures r == E_BACKBONE <==> !stub && {src, dst} != {N_STUB, N_BORDER}
  {
    if stub then E_STUB
    else if (src == N_STUB && dst == N_BORDER) || (src == N_BORDER && dst == N_STUB) then E_BORDER
    else E_BACKBONE
  }

  class Topology {
    const g: Graph
    const mEdges: int

    constructor (g: Graph, mEdges: int)
      ensures this.g == g && this.mEdges == mEdges
    {
      this.g, this.mEdges := g, mEdges;
    }

    /** All nodes are there, each at its id; edges join nodes of the graph; everything is of
        one kind. */
    ghost predicate Valid(kind: Kind)
      reads this, g
    {
      && g.Valid()
      && (forall i :: 0 <= i < g.numNodes ==> g.nodes[i] != null && g.nodes[i].id == i && g.nodes[i].kind == kind)
      && (forall e :: e in g.edges ==> IsEdge(e, kind))
      && (forall i :: 0 <= i < g.numNodes ==> forall e :: e in g.incList[i] ==> e in g.edges)
    }

    ghost predicate IsEdge(e: Edge, kind: Kind)
      requires g.Valid()
      reads this, g
    {
      && e.kind == kind
      && e.src.id < g.numNodes && g.nodes[e.src.id] == e.src
      && e.dst.id < g.numNodes && g.nodes[e.dst.id] == e.dst
    }

    /** The nodes that are leaves already or have few enough edges to become one. */
    ghost function Leaves(): set<BriteNode>
      reads g, set n | n in g.nodes && n != null
    {
      set n: BriteNode | n in g.nodes && (n.role == N_LEAF || n.outDegree <= mEdges)
    }

    /** The edges that are stubs already or have a leaf at an end. */
    ghost function Stubs(): set<Edge>
      reads g, (set n | n in g.nodes && n != null), set e | e in g.edges
    {
      set e | e in g.edges && (e.role == E_STUB || e.src in Leaves() || e.dst in Leaves())
    }

    method PopulateIncidence(ghost kind: Kind)
      requires Valid(kind)
      modifies g`incList
      ensures Valid(kind)
      ensures forall i :: 0 <= i < g.numNodes ==> g.incList[i] == Incident(g.edges, i) + old(g.incList[i])
    {
      for k := 0 to |g.edges|
        invariant Valid(kind)
        invariant forall i :: 0 <= i < g.numNodes ==> g.incList[i] == Incident(g.edges[..k], i) + old(g.incList[i])
      {
        var e := g.edges[k];
        assert g.edges[..k + 1][..k] == g.edges[..k];
        assert IsEdge(e, kind);
        g.AddIncListNode(e);
        forall i | 0 <= i < g.numNodes ensures g.incList[i] == Incident(g.edges[..k + 1], i) + old(g.incList[i]) {
          S.Assoc(EndsOf(e, i), Incident(g.edges[..k], i), old(g.incList[i]));
        }
      }
      assert g.edges[..|g.edges|] == g.edges;
    }

    method LabelLeaves(ghost kind: Kind)
      requires Valid(kind)
      modifies set n | n in g.nodes && n != null
      ensures Valid(kind)
      ensures forall n: BriteNode :: n in g.nodes ==> n.role == if n in old(Leaves()) then N_LEAF else old(n.role)
    {
      ghost var leaves := Leaves();
      for i := 0 to g.numNodes
        invariant Valid(kind)
        invariant forall j :: 0 <= j < i ==>
                    g.nodes[j].role == if g.nodes[j] in leaves then N_LEAF else old(g.nodes[j].role)
        invariant forall j :: i <= j < g.numNodes ==> g.nodes[j].role == old(g.nodes[j].role)
      {
        var node := g.nodes[i];
        assert forall j :: 0 <= j < g.numNodes && j != i ==> g.nodes[j].id != node.id;
        if node.outDegree <= mEdges {
          node.role := N_LEAF;
        }
      }
    }

    method LabelStubEdges(ghost kind: Kind)
      requires Valid(kind)
      modifies set e | e in g.edges
      ensures Valid(kind)
      ensures forall e :: e in g.edges ==>
                e.role == if e.src.role == N_LEAF || e.dst.role == N_LEAF then E_STUB else old(e.role)
    {
      for k := 0 to |g.edges|
        invariant Valid(kind)
        invariant forall e :: e in g.edges && e in g.edges[..k] ==>
                    e.role == if e.src.role == N_LEAF || e.dst.role == N_LEAF then E_STUB else old(e.role)
        invariant forall e :: e in g.edges && e !in g.edges[..k] ==> e.role == old(e.role)
      {
        var e := g.edges[k];
        assert IsEdge(e, kind);
        if e.src.role == N_LEAF || e.dst.role == N_LEAF {
          e.SetRole(e.kind, E_STUB);
        }
      }
    }

    method LabelNodes(ghost kind: Kind, ghost stubs: set<Edge>)
      requires Valid(kind)
      requires forall e :: e in g.edges ==> (e in stubs <==> e.role == E_STUB)
      modifies set n | n in g.nodes && n != null
      ensures Valid(kind)
      ensures forall i :: 0 <= i < g.numNodes ==>
                g.nodes[i].role == NodeRoleFor(old(g.nodes[i].role) == N_LEAF, StubCount(g.incList[i], stubs))
    {
      for i := 0 to g.numNodes
        invariant Valid(kind)
        invariant forall j :: 0 <= j < i ==>
                    g.nodes[j].role == NodeRoleFor(old(g.nodes[j].role) == N_LEAF, StubCount(g.incList[j], stubs))
        invariant forall j :: i <= j < g.numNodes ==> g.nodes[j].role == old(g.nodes[j].role)
      {
        assert forall j :: 0 <= j < g.numNodes && j != i ==> g.nodes[j].id != g.nodes[i].id;
        LabelNode(kind, i, stubs);
      }
    }

    /** The role of one node, by the stub edges in its list; a leaf stays a leaf. */
    method LabelNode(ghost kind: Kind, i: nat, ghost stubs: set<Edge>)
      requires Valid(kind) && i < g.numNodes
      requires forall e :: e in g.edges ==> (e in stubs <==> e.role == E_STUB)
      modifies g.nodes[i]
      ensures old(g.nodes[i].role) == N_LEAF ==> g.nodes[i].role == N_LEAF
      ensures old(g.nodes[i].role) != N_LEAF ==>
                && (g.nodes[i].role == N_STUB <==> StubCount(g.incList[i], stubs) == 1)
                && (g.nodes[i].role == N_BORDER <==> StubCount(g.incList[i], stubs) > 1)
                && (g.nodes[i].role == N_BACKBONE <==> StubCount(g.incList[i], stubs) == 0)
      ensures g.nodes[i].role == NodeRoleFor(old(g.nodes[i].role) == N_LEAF, StubCount(g.incList[i], stubs))
    {
      var node := g.nodes[i];
      if node.role == N_LEAF {
        return;
      }
      var numStubLinks := CountStubLinks(kind, i, stubs);
      node.role := if numStubLinks == 1 then N_STUB else if numStubLinks > 1 then N_BORDER else N_BACKBONE;
    }

    method CountStubLinks(ghost kind: Kind, i: nat, ghost stubs: set<Edge>) returns (numStubLinks: nat)
      requires Valid(kind) && i < g.numNodes
      requires forall e :: e in g.edges ==> (e in stubs <==> e.role == E_STUB)
      ensures numStubLinks == StubCount(g.incList[i], stubs)
    {
      numStubLinks := 0;
      for k := 0 to |g.incList[i]|
        invariant numStubLinks + StubCount(g.incList[i][k..], stubs) == StubCount(g.incList[i], stubs)
      {
        var e := g.incList[i][k];
        assert g.incList[i][k..][1..] == g.incList[i][k + 1..];
        if e.role == E_STUB {
          numStubLinks := numStubLinks + 1;
        }
      }
    }

    method LabelEdges(ghost kind: Kind)
      requires Valid(kind)
      modifies set e | e in g.edges
      ensures Valid(kind)
      ensures forall e :: e in g.edges ==> e.role == EdgeRoleFor(old(e.role) == E_STUB, e.src.role, e.dst.role)
    {
      for k := 0 to |g.edges|
        invariant Valid(kind)
        invariant forall e :: e in g.edges && e in g.edges[..k] ==>
                    e.role == EdgeRoleFor(old(e.role) == E_STUB, e.src.role, e.dst.role)
        invariant forall e :: e in g.edges && e !in g.edges[..k] ==> e.role == old(e.role)
      {
        var e := g.edges[k];
        assert IsEdge(e, kind);
        if e.role != E_STUB {
          var nodeKind := e.src.kind;
          if (e.src.RoleAs(nodeKind) == N_STUB && e.dst.RoleAs(nodeKind) == N_BORDER) ||
             (e.src.RoleAs(nodeKind) == N_BORDER && e.dst.RoleAs(nodeKind) == N_STUB)
          {
            e.SetRole(nodeKind, E_BORDER);
          } else {
            e.SetRole(nodeKind, E_BACKBONE);
          }
        }
      }
    }

    /** Whatever the roles were before: a node is a leaf if it was one or has few enough edges;
        an edge is a stub if it was one or has a leaf at an end; every other node goes by the
        number of stub edges in its incidence list, every other edge by its ends. */
    method Classify(ghost kind: Kind)
      requires Valid(kind)
      modifies g`incList, (set n | n in g.nodes && n != null), set e | e in g.edges
      ensures Valid(kind)
      ensures forall i :: 0 <= i < g.numNodes ==> g.incList[i] == Incident(g.edges, i) + old(g.incList[i])
      ensures forall i :: 0 <= i < g.numNodes ==>
                g.nodes[i].role == NodeRoleFor(g.nodes[i] in old(Leaves()), StubCount(g.incList[i], old(Stubs())))
      ensures forall e :: e in g.edges ==> e.role == EdgeRoleFor(e in old(Stubs()), e.src.role, e.dst.role)
    {
      ghost var leaves, stubs := Leaves(), Stubs();
      PopulateIncidence(kind);
      LabelLeaves(kind);
      LabelStubEdges(kind);
      assert forall i :: 0 <= i < g.numNodes ==> (g.nodes[i].role == N_LEAF <==> g.nodes[i] in leaves);
      forall e | e in g.edges ensures e in stubs <==> e.role == E_STUB {
        assert IsEdge(e, kind);
      }
      LabelNodes(kind, stubs);
      LabelEdges(kind);
    }

    /** Roles given by leaves and stubs have just these leaves and stubs. */
    lemma Settled(kind: Kind, leaves: set<BriteNode>, stubs: set<Edge>)
      requires Valid(kind)
      requires forall n: BriteNode :: n in g.nodes ==>
                 (n in leaves <==> n.role == N_LEAF) && (n.outDegree <= mEdges ==> n in leaves)
      requires forall e :: e in g.edges ==>
                 (e in stubs <==> e.role == E_STUB) && (e.src in leaves || e.dst in leaves ==> e in stubs)
      requires (forall n :: n in leaves ==> n in g.nodes) && (forall e :: e in stubs ==> e in g.edges)
      ensures Leaves() == leaves && Stubs() == stubs
    {}
  }

  // ---- what the incidence lists hold ----

  /** How many ends at node `i` the stub edges have. */
  ghost function StubEnds(edges: seq<Edge>, i: nat, stubs: set<Edge>): nat {
    if edges == [] then 0
    else
      var e := edges[|edges| - 1];
      StubEnds(edges[..|edges| - 1], i, stubs)
        + (if e in stubs && e.src.id == i then 1 else 0) + (if e in stubs && e.dst.id == i then 1 else 0)
  }

  lemma {:induction false} StubCountConcat(a: seq<Edge>, b: seq<Edge>, stubs: set<Edge>)
    ensures StubCount(a + b, stubs) == StubCount(a, stubs) + StubCount(b, stubs)
  {
    if a == [] {
      S.Empty(b);
    } else {
      S.HeadTail(a, b);
      StubCountConcat(a[1..], b, stubs);
    }
  }

  /** From empty incidence lists the number that decides the role of a node is the number of
      ends stub edges have at it. */
  lemma {:induction false} StubLinksAreStubEnds(edges: seq<Edge>, i: nat, stubs: set<Edge>)
    ensures StubCount(Incident(edges, i), stubs) == StubEnds(edges, i, stubs)
  {
    if edges != [] {
      var e := edges[|edges| - 1];
      StubLinksAreStubEnds(edges[..|edges| - 1], i, stubs);
      StubCountConcat(EndsOf(e, i), Incident(edges[..|edges| - 1], i), stubs);
      StubCountConcat(if e.dst.id == i then [e] else [], if e.src.id == i then [e] else [], stubs);
    }
  }

  /** How many entries the incidence lists of the first `n` nodes have. */
  function Entries(edges: seq<Edge>, n: nat): nat {
    if n == 0 then 0 else Entries(edges, n - 1) + |Incident(edges, n - 1)|
  }

  lemma {:induction false} EntriesGrow(edges: seq<Edge>, n: nat)
    requires edges != []
    ensures var e := edges[|edges| - 1];
            Entries(edges, n) == Entries(edges[..|edges| - 1], n)
              + (if e.src.id < n then 1 else 0) + (if e.dst.id < n then 1 else 0)
  {
    if n > 0 {
      EntriesGrow(edges, n - 1);
    }
  }

  lemma {:induction false} NoEntries(n: nat)
    ensures Entries([], n) == 0
  {
    if n > 0 {
      NoEntries(n - 1);
    }
  }

  /** The lists of all nodes together have two entries for each edge. */
  lemma {:induction false} TwoEntriesPerEdge(edges: seq<Edge>, n: nat)
    requires forall e :: e in edges ==> e.src.id < n && e.dst.id < n
    ensures Entries(edges, n) == 2 * |edges|
  {
    if edges == [] {
      NoEntries(n);
    } else {
      EntriesGrow(edges, n);
      assert edges[|edges| - 1] in edges;
      TwoEntriesPerEdge(edges[..|edges| - 1], n);
    }
  }

  function TotalLength(lists: seq<seq<Edge>>): nat {
    if lists == [] then 0 else TotalLength(lists[..|lists| - 1]) + |lists[|lists| - 1]|
  }

  lemma {:induction false} TotalIsEntries(lists: seq<seq<Edge>>, edges: seq<Edge>)
    requires forall i :: 0 <= i < |lists| ==> lists[i] == Incident(edges, i)
    ensures TotalLength(lists) == Entries(edges, |lists|)
  {
    if lists != [] {
      TotalIsEntries(lists[..|lists| - 1], edges);
    }
  }

  /** Nothing has a role yet and no incidence is listed. */
  ghost predicate Unclassified(g: Graph)
    reads g, (set n | n in g.nodes && n != null), set e | e in g.edges
  {
    && g.Valid()
    && (forall i :: 0 <= i < g.numNodes ==> g.incList[i] == [])
    && (forall n: BriteNode :: n in g.nodes ==> n.role == N_NONE)
    && (forall e :: e in g.edges ==> e.role == E_NONE)
  }

  ghost function StubEdges(edges: seq<Edge>): set<Edge>
    reads set e | e in edges
  {
    set e | e in edges && e.role == E_STUB
  }

  lemma StubsOfNew(t: Topology, kind: Kind, leaves: set<BriteNode>, stubs: set<Edge>)
    requires t.Valid(kind)
    requires forall i :: 0 <= i < t.g.numNodes ==> (t.g.nodes[i] in leaves <==> t.g.nodes[i].role == N_LEAF)
    requires forall e :: e in stubs <==> e in t.g.edges && (e.src in leaves || e.dst in leaves)
    requires forall e :: e in t.g.edges ==> e.role == EdgeRoleFor(e in stubs, e.src.role, e.dst.role)
    ensures stubs == StubEdges(t.g.edges)
    ensures forall e :: e in t.g.edges ==> (e in stubs <==> e.src.role == N_LEAF || e.dst.role == N_LEAF)
  {
    forall e | e in t.g.edges ensures e in stubs <==> e.src.role == N_LEAF || e.dst.role == N_LEAF {
      assert t.IsEdge(e, kind);
    }
  }

  /** How many ends of stub edges are at node `i`: a loop has two. */
  ghost function StubEndsAt(edges: seq<Edge>, i: nat): nat
    reads set e | e in edges
  {
    |set k | 0 <= k < |edges| && edges[k].role == E_STUB && edges[k].src.id == i|
    + |set k | 0 <= k < |edges| && edges[k].role == E_STUB && edges[k].dst.id == i|
  }

  ghost function From(edges: seq<Edge>, i: nat, stubs: set<Edge>): set<int> {
    S.Places(edges, (e: Edge) => e in stubs && e.src.id == i)
  }

  ghost function To(edges: seq<Edge>, i: nat, stubs: set<Edge>): set<int> {
    S.Places(edges, (e: Edge) => e in stubs && e.dst.id == i)
  }

  lemma {:induction false} StubEndsArePlaces(edges: seq<Edge>, i: nat, stubs: set<Edge>)
    ensures StubEnds(edges, i, stubs) == |From(edges, i, stubs)| + |To(edges, i, stubs)|
  {
    if edges != [] {
      StubEndsArePlaces(edges[..|edges| - 1], i, stubs);
      S.PlacesGrow(edges, (e: Edge) => e in stubs && e.src.id == i);
      S.PlacesGrow(edges, (e: Edge) => e in stubs && e.dst.id == i);
    } else {
      assert From(edges, i, stubs) == {} && To(edges, i, stubs) == {};
    }
  }

  lemma SamePlaces(edges: seq<Edge>, i: nat, stubs: set<Edge>)
    requires stubs == StubEdges(edges)
    ensures |From(edges, i, stubs)| + |To(edges, i, stubs)| == StubEndsAt(edges, i)
  {
    assert From(edges, i, stubs) == set k | 0 <= k < |edges| && edges[k].role == E_STUB && edges[k].src.id == i;
    assert To(edges, i, stubs) == set k | 0 <= k < |edges| && edges[k].role == E_STUB && edges[k].dst.id == i;
  }

  /** Classifying a new topology: leaves are the nodes of small out-degree, stub edges those with
      a leaf at an end; the other nodes go by the ends stub edges have at them, and the other
      edges by their nodes; and the lists have two entries for each edge. */
  method ClassifyNew(t: Topology, ghost kind: Kind)
    requires t.Valid(kind) && Unclassified(t.g)
    modifies t.g`incList, (set n | n in t.g.nodes && n != null), set e | e in t.g.edges
    ensures t.Valid(kind) && TotalLength(t.g.incList) == 2 * |t.g.edges|
    ensures forall i :: 0 <= i < t.g.numNodes ==>
              var role, leaf, ends := t.g.nodes[i].role, t.g.nodes[i].outDegree <= t.mEdges, StubEndsAt(t.g.edges, i);
              && (role == N_LEAF <==> leaf)
              && (role == N_STUB <==> !leaf && ends == 1)
              && (role == N_BORDER <==> !leaf && ends > 1)
              && (role == N_BACKBONE <==> !leaf && ends == 0)
    ensures forall e :: e in t.g.edges ==>
              var leafEnd := e.src.role == N_LEAF || e.dst.role == N_LEAF;
              var between := (e.src.role == N_STUB && e.dst.role == N_BORDER)
                          || (e.src.role == N_BORDER && e.dst.role == N_STUB);
              && (e.role == E_STUB <==> leafEnd)
              && (e.role == E_BORDER <==> !leafEnd && between)
              && (e.role == E_BACKBONE <==> !leafEnd && !between)
  {
    ghost var leaves, stubs := t.Leaves(), t.Stubs();
    t.Classify(kind);
    StubsOfNew(t, kind, leaves, stubs);
    forall i | 0 <= i < t.g.numNodes
      ensures t.g.incList[i] == Incident(t.g.edges, i)
      ensures StubCount(t.g.incList[i], stubs) == StubEnds(t.g.edges, i, stubs)
    {
      S.Empty(Incident(t.g.edges, i));
      StubLinksAreStubEnds(t.g.edges, i, stubs);
    }
    forall i | 0 <= i < t.g.numNodes ensures StubEnds(t.g.edges, i, stubs) == StubEndsAt(t.g.edges, i) {
      StubEndsArePlaces(t.g.edges, i, stubs);
      SamePlaces(t.g.edges, i, stubs);
    }
    TotalIsEntries(t.g.incList, t.g.edges);
    TwoEntriesPerEdge(t.g.edges, t.g.numNodes);
  }

  /** The roles a classification from empty incidence lists gives to the nodes. */
  ghost function RolesFor(nodes: seq<BriteNode?>, edges: seq<Edge>, leaves: set<BriteNode>, stubs: set<Edge>)
    : seq<NodeRole>
  {
    seq(|nodes|, i requires 0 <= i < |nodes| => NodeRoleFor(nodes[i] in leaves, StubCount(Incident(edges, i), stubs)))
  }

  /** Twice the stub links: exactly the stub nodes get another role. */
  lemma RoleOfTwice(edges: seq<Edge>, i: nat, stubs: set<Edge>, leaf: bool, twice: seq<Edge>)
    requires twice == Incident(edges, i) + (Incident(edges, i) + [])
    ensures var once := NodeRoleFor(leaf, StubCount(Incident(edges, i), stubs));
            NodeRoleFor(leaf, StubCount(twice, stubs)) == if once == N_STUB then N_BORDER else once
  {
    S.Empty(Incident(edges, i));
    StubCountConcat(Incident(edges, i), Incident(edges, i), stubs);
  }

  /** What the roles are when every incidence is listed twice. */
  lemma TwiceRoles(t: Topology, kind: Kind, leaves: set<BriteNode>, stubs: set<Edge>)
    requires t.Valid(kind)
    requires forall i :: 0 <= i < t.g.numNodes ==>
               t.g.incList[i] == Incident(t.g.edges, i) + (Incident(t.g.edges, i) + [])
    requires forall i :: 0 <= i < t.g.numNodes ==>
               t.g.nodes[i].role == NodeRoleFor(t.g.nodes[i] in leaves, StubCount(t.g.incList[i], stubs))
    requires forall e :: e in t.g.edges ==> e.role == EdgeRoleFor(e in stubs, e.src.role, e.dst.role)
    ensures var once := RolesFor(t.g.nodes, t.g.edges, leaves, stubs);
            forall i :: 0 <= i < t.g.numNodes ==> t.g.nodes[i].role == if once[i] == N_STUB then N_BORDER else once[i]
    ensures forall e :: e in t.g.edges ==> e.role == if e in stubs then E_STUB else E_BACKBONE
  {
    ghost var once := RolesFor(t.g.nodes, t.g.edges, leaves, stubs);
    forall i | 0 <= i < t.g.numNodes ensures t.g.nodes[i].role == if once[i] == N_STUB then N_BORDER else once[i] {
      RoleOfTwice(t.g.edges, i, stubs, t.g.nodes[i] in leaves, t.g.incList[i]);
    }
    forall e | e in t.g.edges ensures e.role == if e in stubs then E_STUB else E_BACKBONE {
      assert t.IsEdge(e, kind);
      assert t.g.nodes[e.src.id].role != N_STUB && t.g.nodes[e.dst.id].role != N_STUB;
    }
  }

  /** Classifying a second time starts from the same leaves and stub edges but counts every
      incidence twice; so it is exactly the stub nodes that change, to border nodes, and no
      border edge is left. */
  method ClassifyTwice(t: Topology, ghost kind: Kind)
    requires t.Valid(kind) && forall i :: 0 <= i < t.g.numNodes ==> t.g.incList[i] == []
    modifies t.g`incList, (set n | n in t.g.nodes && n != null), set e | e in t.g.edges
    ensures t.Valid(kind)
    ensures var once := RolesFor(t.g.nodes, t.g.edges, old(t.Leaves()), old(t.Stubs()));
            forall i :: 0 <= i < t.g.numNodes ==> t.g.nodes[i].role == if once[i] == N_STUB then N_BORDER else once[i]
    ensures forall e :: e in t.g.edges ==> e.role == if e in old(t.Stubs()) then E_STUB else E_BACKBONE
  {
    ghost var leaves, stubs := t.Leaves(), t.Stubs();
    t.Classify(kind);
    t.Settled(kind, leaves, stubs);
    t.Classify(kind);
    TwiceRoles(t, kind, leaves, stubs);
  }
}
