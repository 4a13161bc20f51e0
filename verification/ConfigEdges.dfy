/** The edges of the type graph and the texts of paths, told from the type system's own answers. */
module ConfigEdges {
  import opened ConfigPaths
  import opened PathGatherer
  import S = Sequences

  /** An attribute that points to a type other than that of plain objects. */
  predicate IsPointerEdge(reg: Registry, tid: TypeId, hop: Hop) {
    tid in reg.attributes &&
    exists a :: a in reg.attributes[tid] && a.Pointer? && a.pointee != reg.objectType
      && hop.item == a.name && hop.target == a.pointee
  }

  predicate IsContainerEdge(reg: Registry, tid: TypeId, hop: Hop) {
    tid in reg.attributes &&
    exists a :: a in reg.attributes[tid] && a.Container? && hop.item == a.name + "/[i]" && hop.target == a.item
  }

  /** The name of a type after a dollar sign. */
  predicate IsNamed(reg: Registry, hop: Hop) {
    hop.item == "$" + if hop.target in reg.names then reg.names[hop.target] else ""
  }

  predicate IsChildEdge(reg: Registry, tid: TypeId, hop: Hop) {
    hop.target in reg.registered && (hop.target, tid) in reg.childOf && IsNamed(reg, hop)
  }

  predicate IsAggregateEdge(reg: Registry, tid: TypeId, hop: Hop) {
    ((hop.target, tid) in reg.aggregates || (tid, hop.target) in reg.aggregates) && IsNamed(reg, hop)
  }

  lemma {:induction false} AttributeEdges(reg: Registry, tid: TypeId, n: nat, hop: Hop)
    requires n <= |reg.Attributes(tid)|
    ensures hop in reg.AttributeHops(tid, n)
       <==> exists i :: 0 <= i < n && hop in reg.AttributeHop(reg.Attributes(tid)[i])
  {
    if n > 0 {
      AttributeEdges(reg, tid, n - 1, hop);
      S.InConcat(hop, reg.AttributeHops(tid, n - 1), reg.AttributeHop(reg.Attributes(tid)[n - 1]));
    }
  }

  lemma {:induction false} ChildEdges(reg: Registry, tid: TypeId, n: nat, hop: Hop)
    requires n <= |reg.registered|
    ensures hop in reg.ChildHops(tid, n) <==> exists i :: 0 <= i < n && hop in reg.ChildHop(tid, reg.registered[i])
  {
    if n > 0 {
      ChildEdges(reg, tid, n - 1, hop);
      S.InConcat(hop, reg.ChildHops(tid, n - 1), reg.ChildHop(tid, reg.registered[n - 1]));
    }
  }

  lemma {:induction false} AggregateEdges(reg: Registry, tid: TypeId, n: nat, hop: Hop)
    requires n <= |reg.aggregates|
    ensures hop in reg.AggregateHops(tid, n)
       <==> exists i :: 0 <= i < n && hop in reg.AggregateHop(tid, reg.aggregates[i])
  {
    if n > 0 {
      AggregateEdges(reg, tid, n - 1, hop);
      S.InConcat(hop, reg.AggregateHops(tid, n - 1), reg.AggregateHop(tid, reg.aggregates[n - 1]));
    }
  }

  lemma AttributeEdgesAre(reg: Registry, tid: TypeId, hop: Hop)
    ensures hop in reg.AttributeHops(tid, |reg.Attributes(tid)|)
       <==> IsPointerEdge(reg, tid, hop) || IsContainerEdge(reg, tid, hop)
  {
    var attributes := reg.Attributes(tid);
    AttributeEdges(reg, tid, |attributes|, hop);
    if i :| 0 <= i < |attributes| && hop in reg.AttributeHop(attributes[i]) {
      assert attributes[i] in reg.attributes[tid];
    }
    if IsPointerEdge(reg, tid, hop) || IsContainerEdge(reg, tid, hop) {
      var a :| a in attributes && hop in reg.AttributeHop(a);
      var i :| 0 <= i < |attributes| && attributes[i] == a;
    }
  }

  lemma ChildEdgesAre(reg: Registry, tid: TypeId, hop: Hop)
    ensures hop in reg.ChildHops(tid, |reg.registered|) <==> IsChildEdge(reg, tid, hop)
  {
    ChildEdges(reg, tid, |reg.registered|, hop);
    if IsChildEdge(reg, tid, hop) {
      var i :| 0 <= i < |reg.registered| && reg.registered[i] == hop.target;
      assert hop in reg.ChildHop(tid, reg.registered[i]);
    }
  }

  lemma AggregateEdgesAre(reg: Registry, tid: TypeId, hop: Hop)
    ensures hop in reg.AggregateHops(tid, |reg.aggregates|) <==> IsAggregateEdge(reg, tid, hop)
  {
    AggregateEdges(reg, tid, |reg.aggregates|, hop);
    if i :| 0 <= i < |reg.aggregates| && hop in reg.AggregateHop(tid, reg.aggregates[i]) {
      assert reg.aggregates[i] in reg.aggregates;
    }
    if IsAggregateEdge(reg, tid, hop) {
      var pair := if (hop.target, tid) in reg.aggregates then (hop.target, tid) else (tid, hop.target);
      var i :| 0 <= i < |reg.aggregates| && reg.aggregates[i] == pair;
      assert hop in reg.AggregateHop(tid, reg.aggregates[i]);
    }
  }

  /** The edges out of a type are those of its pointers and containers, of its derived types and
      of its aggregations. */
  lemma EdgesAre(reg: Registry, tid: TypeId, hop: Hop)
    ensures hop in reg.Hops(tid)
       <==> || IsPointerEdge(reg, tid, hop) || IsContainerEdge(reg, tid, hop)
            || IsChildEdge(reg, tid, hop) || IsAggregateEdge(reg, tid, hop)
  {
    var a := reg.AttributeHops(tid, |reg.Attributes(tid)|);
    var b := reg.ChildHops(tid, |reg.registered|);
    S.InConcat(hop, a, b);
    S.InConcat(hop, a + b, reg.AggregateHops(tid, |reg.aggregates|));
    AttributeEdgesAre(reg, tid, hop);
    ChildEdgesAre(reg, tid, hop);
    AggregateEdgesAre(reg, tid, hop);
  }

  /** Each edge to another type is a path on its own: the item after a slash. */
  lemma PathOfEdge(reg: Registry, tid: TypeId, hop: Hop) returns (w: Walk)
    requires hop in reg.Hops(tid) && hop.target != tid
    ensures IsSimpleWalk(reg, tid, {}, w) && EntryOf(reg, tid, [], w) == Entry(hop.target, "/" + hop.item)
  {
    var k :| 0 <= k < |reg.Hops(tid)| && reg.Hops(tid)[k] == hop;
    w := [k];
    assert w[1..] == [];
    assert Visited(reg, hop.target, []) == [hop.target];
    assert Visited(reg, tid, w) == [tid, hop.target];
    assert EndOf(reg, tid, w) == hop.target;
    assert Items(reg, hop.target, []) == [];
    assert Items(reg, tid, w) == [hop.item];
    assert [] + Items(reg, tid, w) == [hop.item];
    OneItem(hop.item);
  }

  lemma OneItem(item: string)
    ensures PathText([item]) == "/" + item
  {
    assert [item][..0] == [];
    assert PathText([item][..0]) == "";
    S.Empty("/");
  }

  lemma PathTextIs(items: seq<string>, item: string)
    ensures PathText([]) == "" && PathText(items + [item]) == PathText(items) + "/" + item
  {
    assert (items + [item])[..|items|] == items;
  }

  lemma PathTextExample()
    ensures PathText(["DeviceList/[i]", "$ns3::Node"]) == "/DeviceList/[i]/$ns3::Node"
  {
    OneItem("DeviceList/[i]");
    PathTextIs(["DeviceList/[i]"], "$ns3::Node");
    assert ["DeviceList/[i]"] + ["$ns3::Node"] == ["DeviceList/[i]", "$ns3::Node"];
  }

  /** A pointer to plain objects and other attributes give no edge. */
  lemma AttributesExample(reg: Registry)
    requires reg.attributes ==
             map[0 := [Container("DeviceList", 1), Pointer("Any", 9), Other("Mtu"), Pointer("Mac", 2)]]
    requires reg.objectType == 9
    ensures |reg.Attributes(0)| == 4 && reg.AttributeHops(0, 4) == [Hop("DeviceList/[i]", 1), Hop("Mac", 2)]
  {
    assert "DeviceList" + "/[i]" == "DeviceList/[i]";
    var attributes := reg.Attributes(0);
    FirstHops(reg, 0);
    assert reg.AttributeHop(attributes[1]) == [] && reg.AttributeHop(attributes[2]) == [];
    assert reg.AttributeHops(0, 2) == reg.AttributeHops(0, 1);
    assert reg.AttributeHops(0, 3) == reg.AttributeHops(0, 2);
    assert reg.AttributeHops(0, 4) == reg.AttributeHops(0, 3) + [Hop("Mac", 2)];
  }

  lemma ChildrenExample(reg: Registry)
    requires reg.names == map[0 := "A", 3 := "B", 4 := "C"] && reg.registered == [3, 4] && reg.childOf == {(3, 0)}
    ensures reg.ChildHops(0, 2) == [Hop("$B", 3)]
  {
    assert "$" + "B" == "$B";
    FirstHops(reg, 0);
    assert reg.ChildHop(0, reg.registered[1]) == [];
  }

  /** An aggregation is followed from either of its ends. */
  lemma AggregatesExample(reg: Registry)
    requires reg.names == map[0 := "A", 3 := "B", 4 := "C"] && reg.aggregates == [(4, 0), (5, 6), (0, 3), (0, 0)]
    ensures reg.AggregateHops(0, 4) == [Hop("$C", 4), Hop("$B", 3), Hop("$A", 0)]
  {
    assert "$" + "A" == "$A" && "$" + "B" == "$B" && "$" + "C" == "$C";
    FirstHops(reg, 0);
    assert reg.AggregateHop(0, reg.aggregates[1]) == [];
    assert reg.AggregateHops(0, 2) == reg.AggregateHops(0, 1);
    assert reg.AggregateHops(0, 3) == reg.AggregateHops(0, 2) + [Hop("$B", 3)];
    assert reg.AggregateHops(0, 4) == reg.AggregateHops(0, 3) + [Hop("$A", 0)];
  }

  /** The edges come in the order of the three loops. */
  lemma EdgesExample(reg: Registry)
    requires reg.attributes ==
             map[0 := [Container("DeviceList", 1), Pointer("Any", 9), Other("Mtu"), Pointer("Mac", 2)]]
    requires reg.names == map[0 := "A", 3 := "B", 4 := "C"] && reg.objectType == 9
    requires reg.registered == [3, 4] && reg.childOf == {(3, 0)} && reg.aggregates == [(4, 0), (5, 6), (0, 3), (0, 0)]
    ensures reg.Hops(0) ==
            [Hop("DeviceList/[i]", 1), Hop("Mac", 2), Hop("$B", 3), Hop("$C", 4), Hop("$B", 3), Hop("$A", 0)]
  {
    AttributesExample(reg);
    ChildrenExample(reg);
    AggregatesExample(reg);
  }

  lemma FirstHops(reg: Registry, tid: TypeId)
    ensures reg.AttributeHops(tid, 0) == [] && reg.ChildHops(tid, 0) == [] && reg.AggregateHops(tid, 0) == []
    ensures |reg.Attributes(tid)| > 0 ==> reg.AttributeHops(tid, 1) == reg.AttributeHop(reg.Attributes(tid)[0])
    ensures |reg.registered| > 0 ==> reg.ChildHops(tid, 1) == reg.ChildHop(tid, reg.registered[0])
    ensures |reg.aggregates| > 0 ==> reg.AggregateHops(tid, 1) == reg.AggregateHop(tid, reg.aggregates[0])
  {}

  /** Gathering finds that path. */
  method PathToNeighbour(reg: Registry, tid: TypeId, hop: Hop) returns (paths: seq<string>)
    requires reg.Closed() && tid in reg.types && hop.target != tid
    requires || IsPointerEdge(reg, tid, hop) || IsContainerEdge(reg, tid, hop)
             || IsChildEdge(reg, tid, hop) || IsAggregateEdge(reg, tid, hop)
    ensures "/" + hop.item in paths
  {
    EdgesAre(reg, tid, hop);
    ghost var w := PathOfEdge(reg, tid, hop);
    paths := PathsBetween(reg, tid, hop.target);
  }
}
