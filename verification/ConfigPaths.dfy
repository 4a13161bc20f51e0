/** The configuration paths of the type system: a graph whose nodes are type ids and whose
    edges, in the order the gatherer follows them, are pointer and container attributes,
    derived types and aggregated types. The graph may have cycles. */
module ConfigPaths {
  import S = Sequences

  type TypeId = nat

  datatype Attribute =
    | Pointer(name: string, pointee: TypeId)
    | Container(name: string, item: TypeId)
    | Other(name: string)

  /** An edge: the item it adds to the path and where it leads. */
  datatype Hop = Hop(item: string, target: TypeId)

  /** What the type system answers: the attributes and names of types, the registered types in
      order, which of them derive from which, and the type of plain objects. `types` are all
      types there are. */
  datatype Registry = Registry(attributes: map<TypeId, seq<Attribute>>, names: map<TypeId, string>,
                               registered: seq<TypeId>, childOf: set<(TypeId, TypeId)>,
                               objectType: TypeId, aggregates: seq<(TypeId, TypeId)>, types: set<TypeId>)
  {
    function Attributes(tid: TypeId): seq<Attribute> {
      if tid in attributes then attributes[tid] else []
    }

    function Name(tid: TypeId): string {
      if tid in names then names[tid] else ""
    }

    /** Pointers to plain objects and other attributes lead nowhere. */
    function AttributeHop(a: Attribute): seq<Hop> {
      match a
      case Pointer(name, pointee) => if pointee == objectType then [] else [Hop(name, pointee)]
      case Container(name, item) => [Hop(name + "/[i]", item)]
      case Other(_) => []
    }

    function ChildHop(tid: TypeId, child: TypeId): seq<Hop> {
      if (child, tid) in childOf then [Hop("$" + Name(child), child)] else []
    }

    function AggregateHop(tid: TypeId, pair: (TypeId, TypeId)): seq<Hop> {
      if pair.1 == tid then [Hop("$" + Name(pair.0), pair.0)]
      else if pair.0 == tid then [Hop("$" + Name(pair.1), pair.1)]
      else []
    }

    /** The edges of the first `i` attributes, registered types, aggregations. */
    function AttributeHops(tid: TypeId, i: nat): seq<Hop>
      requires i <= |Attributes(tid)|
    {
      if i == 0 then [] else AttributeHops(tid, i - 1) + AttributeHop(Attributes(tid)[i - 1])
    }

    function ChildHops(tid: TypeId, i: nat): seq<Hop>
      requires i <= |registered|
    {
      if i == 0 then [] else ChildHops(tid, i - 1) + ChildHop(tid, registered[i - 1])
    }

    function AggregateHops(tid: TypeId, i: nat): seq<Hop>
      requires i <= |aggregates|
    {
      if i == 0 then [] else AggregateHops(tid, i - 1) + AggregateHop(tid, aggregates[i - 1])
    }

    /** All edges out of a type. */
    function Hops(tid: TypeId): seq<Hop> {
      AttributeHops(tid, |Attributes(tid)|) + ChildHops(tid, |registered|) + AggregateHops(tid, |aggregates|)
    }

    ghost predicate Closed() {
      forall tid :: tid in types ==> forall k :: 0 <= k < |Hops(tid)| ==> Hops(tid)[k].target in types
    }
  }

  // ---- walks ----

  /** A walk from a type, as the number of the edge taken at each turn. */
  type Walk = seq<nat>

  predicate IsWalk(reg: Registry, tid: TypeId, w: Walk)
    decreases |w|
  {
    w != [] ==> w[0] < |reg.Hops(tid)| && IsWalk(reg, reg.Hops(tid)[w[0]].target, w[1..])
  }

  /** The types a walk comes through, the first included. */
  function Visited(reg: Registry, tid: TypeId, w: Walk): seq<TypeId>
    requires IsWalk(reg, tid, w)
    decreases |w|
  {
    [tid] + if w == [] then [] else Visited(reg, reg.Hops(tid)[w[0]].target, w[1..])
  }

  function EndOf(reg: Registry, tid: TypeId, w: Walk): TypeId
    requires IsWalk(reg, tid, w)
    decreases |w|
  {
    if w == [] then tid else EndOf(reg, reg.Hops(tid)[w[0]].target, w[1..])
  }

  /** The items of the edges taken. */
  function Items(reg: Registry, tid: TypeId, w: Walk): seq<string>
    requires IsWalk(reg, tid, w)
    decreases |w|
  {
    if w == [] then []
    else
      var hop := reg.Hops(tid)[w[0]];
      [hop.item] + Items(reg, hop.target, w[1..])
  }

  /** A walk that comes through no type twice and through none of `avoid`. */
  predicate IsSimpleWalk(reg: Registry, tid: TypeId, avoid: set<TypeId>, w: Walk) {
    && IsWalk(reg, tid, w)
    && S.NoRepeats(Visited(reg, tid, w))
    && forall t :: t in Visited(reg, tid, w) ==> t !in avoid
  }

  /** The order in which edges are tried: a walk before all that go on from it, then by the
      first edge that differs. */
  predicate Before(a: Walk, b: Walk) {
    if a == [] then b != []
    else b != [] && (a[0] < b[0] || (a[0] == b[0] && Before(a[1..], b[1..])))
  }

  ghost predicate Increasing(ws: seq<Walk>) {
    forall i, j :: 0 <= i < j < |ws| ==> Before(ws[i], ws[j])
  }

  function Prefixed(k: nat, ws: seq<Walk>): seq<Walk> {
    seq(|ws|, i requires 0 <= i < |ws| => [k] + ws[i])
  }

  /** The simple walks in the order in which a backtracking search comes upon them. */
  ghost function Walks(reg: Registry, tid: TypeId, avoid: set<TypeId>): seq<Walk>
    requires reg.Closed() && tid in reg.types
    decreases |reg.types - avoid|, 1, 0
  {
    if tid in avoid then [] else
      assert reg.types - (avoid + {tid}) == reg.types - avoid - {tid};
      [[]] + Branches(reg, tid, avoid + {tid}, |reg.Hops(tid)|)
  }

  /** Those that go on along one of the first `c` edges. */
  ghost function Branches(reg: Registry, tid: TypeId, avoid: set<TypeId>, c: nat): seq<Walk>
    requires reg.Closed() && tid in reg.types && c <= |reg.Hops(tid)|
    decreases |reg.types - avoid|, 2, c
  {
    if c == 0 then []
    else Branches(reg, tid, avoid, c - 1) + Prefixed(c - 1, Walks(reg, reg.Hops(tid)[c - 1].target, avoid))
  }

  // ---- they are exactly the simple walks, each once ----

  lemma InPrefixed(k: nat, ws: seq<Walk>, w: Walk)
    ensures w in Prefixed(k, ws) <==> w != [] && w[0] == k && w[1..] in ws
  {
    if w in Prefixed(k, ws) {
      var i :| 0 <= i < |ws| && Prefixed(k, ws)[i] == w;
      S.Cons(k, ws[i]);
    }
    if w != [] && w[0] == k && w[1..] in ws {
      var i :| 0 <= i < |ws| && ws[i] == w[1..];
      S.Uncons(w);
      assert Prefixed(k, ws)[i] == w;
    }
  }

  lemma InAppended(front: seq<Walk>, k: nat, ws: seq<Walk>, w: Walk)
    ensures w in front + Prefixed(k, ws) <==> w in front || (w != [] && w[0] == k && w[1..] in ws)
  {
    InPrefixed(k, ws, w);
    S.InConcat(w, front, Prefixed(k, ws));
  }

  lemma {:induction false} InBranches(reg: Registry, tid: TypeId, avoid: set<TypeId>, c: nat, w: Walk)
    requires reg.Closed() && tid in reg.types && c <= |reg.Hops(tid)|
    ensures w in Branches(reg, tid, avoid, c)
       <==> w != [] && w[0] < c && w[1..] in Walks(reg, reg.Hops(tid)[w[0]].target, avoid)
  {
    if c > 0 {
      var ws := Walks(reg, reg.Hops(tid)[c - 1].target, avoid);
      InBranches(reg, tid, avoid, c - 1, w);
      InAppended(Branches(reg, tid, avoid, c - 1), c - 1, ws, w);
    }
  }

  lemma NoRepeatsCons(x: TypeId, s: seq<TypeId>)
    ensures S.NoRepeats([x] + s) <==> S.NoRepeats(s) && x !in s
  {
    var all := [x] + s;
    if S.NoRepeats(all) {
      forall i | 0 <= i < |s| ensures x != s[i] {
        assert all[0] == x && all[i + 1] == s[i];
      }
      forall i, j | 0 <= i < j < |s| ensures s[i] != s[j] {
        assert all[i + 1] == s[i] && all[j + 1] == s[j];
      }
    }
  }

  /** A walk is simple when its first type may be visited and the rest is simple without it. */
  lemma SimpleStep(reg: Registry, tid: TypeId, avoid: set<TypeId>, w: Walk)
    ensures IsSimpleWalk(reg, tid, avoid, w) <==>
            tid !in avoid &&
            (w == [] ||
             (w[0] < |reg.Hops(tid)| && IsSimpleWalk(reg, reg.Hops(tid)[w[0]].target, avoid + {tid}, w[1..])))
  {
    if w == [] {
      assert IsWalk(reg, tid, w) && Visited(reg, tid, w) == [tid];
    } else if w[0] < |reg.Hops(tid)| && IsWalk(reg, reg.Hops(tid)[w[0]].target, w[1..]) {
      var rest := Visited(reg, reg.Hops(tid)[w[0]].target, w[1..]);
      assert Visited(reg, tid, w) == [tid] + rest;
      NoRepeatsCons(tid, rest);
      assert forall t :: t in [tid] + rest <==> t == tid || t in rest;
    }
  }

  /** The search comes upon a walk if and only if it is simple. */
  lemma {:induction false} WalksAreTheSimpleOnes(reg: Registry, tid: TypeId, avoid: set<TypeId>, w: Walk)
    requires reg.Closed() && tid in reg.types
    ensures w in Walks(reg, tid, avoid) <==> IsSimpleWalk(reg, tid, avoid, w)
    decreases |w|
  {
    SimpleStep(reg, tid, avoid, w);
    if tid !in avoid {
      InBranches(reg, tid, avoid + {tid}, |reg.Hops(tid)|, w);
      if w != [] && w[0] < |reg.Hops(tid)| {
        WalksAreTheSimpleOnes(reg, reg.Hops(tid)[w[0]].target, avoid + {tid}, w[1..]);
      }
    }
  }

  lemma PrefixedIncreasing(k: nat, ws: seq<Walk>)
    requires Increasing(ws)
    ensures Increasing(Prefixed(k, ws))
  {
    forall i, j | 0 <= i < j < |ws| ensures Before(Prefixed(k, ws)[i], Prefixed(k, ws)[j]) {
      S.Cons(k, ws[i]);
      S.Cons(k, ws[j]);
    }
  }

  lemma IncreasingConcat(a: seq<Walk>, b: seq<Walk>)
    requires Increasing(a) && Increasing(b)
    requires forall v, w :: v in a && w in b ==> Before(v, w)
    ensures Increasing(a + b)
  {
    forall i, j | 0 <= i < j < |a + b| ensures Before((a + b)[i], (a + b)[j]) {
      if i < |a| <= j {
        assert a[i] in a && b[j - |a|] in b;
      }
    }
  }

  /** The search comes upon the walks in order, and so upon none twice. */
  lemma {:induction false} WalksIncrease(reg: Registry, tid: TypeId, avoid: set<TypeId>)
    requires reg.Closed() && tid in reg.types
    ensures Increasing(Walks(reg, tid, avoid))
    decreases |reg.types - avoid|, 1, 0
  {
    if tid !in avoid {
      assert reg.types - (avoid + {tid}) == reg.types - avoid - {tid};
      var n := |reg.Hops(tid)|;
      BranchesIncrease(reg, tid, avoid + {tid}, n);
      forall w | w in Branches(reg, tid, avoid + {tid}, n) ensures Before([], w) {
        InBranches(reg, tid, avoid + {tid}, n, w);
      }
      IncreasingConcat([[]], Branches(reg, tid, avoid + {tid}, n));
    }
  }

  lemma {:induction false} BranchesIncrease(reg: Registry, tid: TypeId, avoid: set<TypeId>, c: nat)
    requires reg.Closed() && tid in reg.types && c <= |reg.Hops(tid)|
    ensures Increasing(Branches(reg, tid, avoid, c))
    decreases |reg.types - avoid|, 2, c
  {
    if c > 0 {
      var ws := Walks(reg, reg.Hops(tid)[c - 1].target, avoid);
      BranchesIncrease(reg, tid, avoid, c - 1);
      WalksIncrease(reg, reg.Hops(tid)[c - 1].target, avoid);
      PrefixedIncreasing(c - 1, ws);
      forall v, w | v in Branches(reg, tid, avoid, c - 1) && w in Prefixed(c - 1, ws) ensures Before(v, w) {
        InBranches(reg, tid, avoid, c - 1, v);
        InPrefixed(c - 1, ws, w);
      }
      IncreasingConcat(Branches(reg, tid, avoid, c - 1), Prefixed(c - 1, ws));
    }
  }

  lemma {:induction false} BeforeIsStrict(w: Walk)
    ensures !Before(w, w)
  {
    if w != [] {
      BeforeIsStrict(w[1..]);
    }
  }

  lemma EachWalkOnce(ws: seq<Walk>)
    requires Increasing(ws)
    ensures forall i, j :: 0 <= i < j < |ws| ==> ws[i] != ws[j]
  {
    forall i, j | 0 <= i < j < |ws| ensures ws[i] != ws[j] {
      BeforeIsStrict(ws[i]);
      assert Before(ws[i], ws[j]);
    }
  }
}
