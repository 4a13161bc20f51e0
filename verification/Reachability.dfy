/** Paths in adjacency lists, and what a set that a search has explored means for them. */
module Reachability {
  import S = Sequences

  type Adjacency = seq<seq<nat>>

  predicate WellFormed(adj: Adjacency) {
    forall u :: 0 <= u < |adj| ==> forall j :: 0 <= j < |adj[u]| ==> adj[u][j] < |adj|
  }

  /** `p` goes from `u` to `v` along edges, through nodes of `within` only. */
  ghost predicate IsPath(adj: Adjacency, within: set<nat>, p: seq<nat>, u: nat, v: nat) {
    && p != [] && p[0] == u && p[|p| - 1] == v
    && (forall i :: 0 <= i < |p| ==> p[i] < |adj| && p[i] in within)
    && (forall i :: 0 <= i < |p| - 1 ==> p[i + 1] in adj[p[i]])
  }

  ghost predicate Reaches(adj: Adjacency, within: set<nat>, u: nat, v: nat) {
    exists p :: IsPath(adj, within, p, u, v)
  }

  lemma ReachesSelf(adj: Adjacency, within: set<nat>, u: nat)
    requires u < |adj| && u in within
    ensures Reaches(adj, within, u, u)
  {
    assert IsPath(adj, within, [u], u, u);
  }

  /** An edge in front of a path, and more nodes to go through. */
  lemma ReachesPrepend(adj: Adjacency, within: set<nat>, inner: set<nat>, u: nat, w: nat, v: nat)
    requires u < |adj| && u in within && w in adj[u] && inner <= within
    requires Reaches(adj, inner, w, v)
    ensures Reaches(adj, within, u, v)
  {
    var p :| IsPath(adj, inner, p, w, v);
    var q := [u] + p;
    assert forall i :: 0 < i < |q| ==> q[i] == p[i - 1];
    assert IsPath(adj, within, q, u, v);
  }

  lemma ReachesAppend(adj: Adjacency, within: set<nat>, u: nat, v: nat, w: nat)
    requires Reaches(adj, within, u, v) && v < |adj| && w < |adj| && w in within && w in adj[v]
    ensures Reaches(adj, within, u, w)
  {
    var p :| IsPath(adj, within, p, u, v);
    assert IsPath(adj, within, p + [w], u, w);
  }

  lemma ReachesTransitive(adj: Adjacency, within: set<nat>, u: nat, v: nat, w: nat)
    requires Reaches(adj, within, u, v) && Reaches(adj, within, v, w)
    ensures Reaches(adj, within, u, w)
  {
    var p :| IsPath(adj, within, p, u, v);
    var q :| IsPath(adj, within, q, v, w);
    var r := p + q[1..];
    assert forall i :: |p| <= i < |r| ==> r[i] == q[i - |p| + 1];
    assert IsPath(adj, within, r, u, w);
  }

  ghost predicate Symmetric(adj: Adjacency) {
    forall u, v :: 0 <= u < |adj| && 0 <= v < |adj| && v in adj[u] ==> u in adj[v]
  }

  lemma {:induction false} ReachesSymmetric(adj: Adjacency, within: set<nat>, p: seq<nat>, u: nat, v: nat)
    requires Symmetric(adj) && IsPath(adj, within, p, u, v)
    ensures Reaches(adj, within, v, u)
    decreases |p|
  {
    if |p| == 1 {
      ReachesSelf(adj, within, u);
    } else {
      var q := p[1..];
      assert forall i :: 0 <= i < |q| ==> q[i] == p[i + 1];
      assert IsPath(adj, within, q, p[1], v);
      ReachesSymmetric(adj, within, q, p[1], v);
      assert p[0 + 1] in adj[p[0]];
      ReachesAppend(adj, within, v, p[1], u);
    }
  }

  // ---- explored sets ----

  /** Every edge out of `found` that stays in `within` stays in `found`. */
  ghost predicate Closed(adj: Adjacency, within: set<nat>, found: set<nat>) {
    forall x :: x in found && x < |adj| ==> forall y :: y in adj[x] && y in within ==> y in found
  }

  lemma {:induction false} PathStaysInside(adj: Adjacency, within: set<nat>, found: set<nat>, p: seq<nat>,
                                           u: nat, v: nat)
    requires Closed(adj, within, found) && u in found && IsPath(adj, within, p, u, v)
    ensures v in found
    decreases |p|
  {
    if |p| > 1 {
      var q := p[1..];
      assert forall i :: 0 <= i < |q| ==> q[i] == p[i + 1];
      assert p[0 + 1] in adj[p[0]];
      PathStaysInside(adj, within, found, q, p[1], v);
    }
  }

  /** A closed set of reachable nodes is the set of all reachable nodes. */
  lemma ExploredIsReachable(adj: Adjacency, within: set<nat>, found: set<nat>, u: nat)
    requires Closed(adj, within, found) && u in found
    requires forall v :: v in found ==> Reaches(adj, within, u, v)
    ensures forall v: nat :: v in found <==> Reaches(adj, within, u, v)
  {
    forall v: nat | Reaches(adj, within, u, v) ensures v in found {
      var p :| IsPath(adj, within, p, u, v);
      PathStaysInside(adj, within, found, p, u, v);
    }
  }

  // ---- search trees ----

  /** In the order of discovery every node but the first has its parent before it and joined
      to it by an edge. */
  ghost predicate ParentsFirst(adj: Adjacency, pi: seq<int>, order: seq<nat>) {
    forall k :: 0 < k < |order| ==> HasParent(adj, pi, order, k)
  }

  ghost predicate HasParent(adj: Adjacency, pi: seq<int>, order: seq<nat>, k: nat)
    requires k < |order|
  {
    order[k] < |pi| &&
    exists j :: 0 <= j < k && order[j] < |adj| && pi[order[k]] == order[j] && order[k] in adj[order[j]]
  }

  /** The node `k` steps up from `v`. */
  function Ancestor(pi: seq<int>, v: int, k: nat): int
    decreases k
  {
    if k == 0 then v else if 0 <= v < |pi| then Ancestor(pi, pi[v], k - 1) else v
  }

  /** Going up from a node leads to the first in at most as many steps as it has before it. */
  lemma {:induction false} AncestorIsRoot(adj: Adjacency, pi: seq<int>, order: seq<nat>, k: nat) returns (steps: nat)
    requires ParentsFirst(adj, pi, order) && k < |order|
    ensures steps <= k && Ancestor(pi, order[k], steps) == order[0]
  {
    if k == 0 {
      steps := 0;
    } else {
      assert HasParent(adj, pi, order, k);
      var j :| 0 <= j < k && order[j] < |adj| && pi[order[k]] == order[j] && order[k] in adj[order[j]];
      steps := AncestorIsRoot(adj, pi, order, j);
      steps := steps + 1;
    }
  }

  lemma {:induction false} NoRepeatsSize(s: seq<nat>)
    requires S.NoRepeats(s)
    ensures |S.Elements(s)| == |s|
  {
    if s != [] {
      var t := s[..|s| - 1];
      NoRepeatsSize(t);
      assert S.Elements(s) == S.Elements(t) + {s[|s| - 1]};
    }
  }

  function Below(n: nat): (s: set<nat>)
    ensures |s| == n && forall v: nat :: v in s <==> v < n
  {
    if n == 0 then {} else Below(n - 1) + {n - 1}
  }

  lemma {:induction false} SubsetSize(a: set<nat>, b: set<nat>)
    requires a <= b
    ensures |a| <= |b|
  {
    if a != {} {
      var x :| x in a;
      SubsetSize(a - {x}, b - {x});
    }
  }

  /** A discovery order without repeats is no longer than there are nodes. */
  lemma OrderBound(order: seq<nat>, n: nat)
    requires S.NoRepeats(order) && forall v :: v in order ==> v < n
    ensures |order| <= n
  {
    NoRepeatsSize(order);
    SubsetSize(S.Elements(order), Below(n));
  }
}
