/** The gatherer: a recursive search with two explicit stacks, one of path items and one of
    the types being processed, that records an entry whenever it comes to a type. */
module PathGatherer {
  import opened ConfigPaths
  import S = Sequences

  datatype Entry = Entry(tid: TypeId, path: string)

  /** Every item after a slash. */
  function PathText(items: seq<string>): string {
    if items == [] then "" else PathText(items[..|items| - 1]) + "/" + items[|items| - 1]
  }

  /** The entry of a walk from `tid` that is itself reached by `path`. */
  function EntryOf(reg: Registry, tid: TypeId, path: seq<string>, w: Walk): Entry
    requires IsWalk(reg, tid, w)
  {
    Entry(EndOf(reg, tid, w), PathText(path + Items(reg, tid, w)))
  }

  predicate AreWalks(reg: Registry, tid: TypeId, ws: seq<Walk>) {
    forall i :: 0 <= i < |ws| ==> IsWalk(reg, tid, ws[i])
  }

  function EntriesOf(reg: Registry, tid: TypeId, path: seq<string>, ws: seq<Walk>): (entries: seq<Entry>)
    requires AreWalks(reg, tid, ws)
    ensures |entries| == |ws| && forall i :: 0 <= i < |ws| ==> entries[i] == EntryOf(reg, tid, path, ws[i])
  {
    seq(|ws|, i requires 0 <= i < |ws| => EntryOf(reg, tid, path, ws[i]))
  }

  lemma WalksAreWalks(reg: Registry, tid: TypeId, avoid: set<TypeId>)
    requires reg.Closed() && tid in reg.types
    ensures AreWalks(reg, tid, Walks(reg, tid, avoid))
  {
    var ws := Walks(reg, tid, avoid);
    forall i | 0 <= i < |ws| ensures IsWalk(reg, tid, ws[i]) {
      assert ws[i] in ws;
      WalksAreTheSimpleOnes(reg, tid, avoid, ws[i]);
    }
  }

  /** The own walk and those along the first `c` edges. */
  ghost function Found(reg: Registry, tid: TypeId, path: seq<string>, avoid: set<TypeId>, c: nat): seq<Entry>
    requires reg.Closed() && tid in reg.types && c <= |reg.Hops(tid)|
  {
    FoundAreWalks(reg, tid, avoid, c);
    EntriesOf(reg, tid, path, [[]] + Branches(reg, tid, avoid, c))
  }

  lemma FoundAreWalks(reg: Registry, tid: TypeId, avoid: set<TypeId>, c: nat)
    requires reg.Closed() && tid in reg.types && c <= |reg.Hops(tid)|
    ensures AreWalks(reg, tid, [[]] + Branches(reg, tid, avoid, c))
  {
    var ws := [[]] + Branches(reg, tid, avoid, c);
    forall i | 0 <= i < |ws| ensures IsWalk(reg, tid, ws[i]) {
      if i > 0 {
        assert ws[i] in Branches(reg, tid, avoid, c);
        InBranches(reg, tid, avoid, c, ws[i]);
        WalksAreTheSimpleOnes(reg, reg.Hops(tid)[ws[i][0]].target, avoid, ws[i][1..]);
      }
    }
  }

  /** Going along an edge first puts its item on the path. */
  lemma EntryAlongEdge(reg: Registry, tid: TypeId, path: seq<string>, k: nat, w: Walk)
    requires k < |reg.Hops(tid)| && IsWalk(reg, reg.Hops(tid)[k].target, w)
    ensures var hop := reg.Hops(tid)[k];
            IsWalk(reg, tid, [k] + w) &&
            EntryOf(reg, tid, path, [k] + w) == EntryOf(reg, hop.target, path + [hop.item], w)
  {
    var hop := reg.Hops(tid)[k];
    S.Cons(k, w);
    S.Assoc(path, [hop.item], Items(reg, hop.target, w));
  }

  lemma FoundNext(reg: Registry, tid: TypeId, path: seq<string>, avoid: set<TypeId>, c: nat)
    requires reg.Closed() && tid in reg.types && c < |reg.Hops(tid)|
    ensures AreWalks(reg, reg.Hops(tid)[c].target, Walks(reg, reg.Hops(tid)[c].target, avoid))
    ensures var hop := reg.Hops(tid)[c];
            Found(reg, tid, path, avoid, c + 1) ==
            Found(reg, tid, path, avoid, c)
              + EntriesOf(reg, hop.target, path + [hop.item], Walks(reg, hop.target, avoid))
  {
    var hop := reg.Hops(tid)[c];
    var ws := Walks(reg, hop.target, avoid);
    WalksAreWalks(reg, hop.target, avoid);
    var a, b := [[]] + Branches(reg, tid, avoid, c), Prefixed(c, ws);
    FoundAreWalks(reg, tid, avoid, c);
    FoundAreWalks(reg, tid, avoid, c + 1);
    S.Assoc([[]], Branches(reg, tid, avoid, c), b);
    forall i | 0 <= i < |ws|
      ensures IsWalk(reg, tid, b[i])
      ensures EntryOf(reg, tid, path, b[i]) == EntryOf(reg, hop.target, path + [hop.item], ws[i])
    {
      EntryAlongEdge(reg, tid, path, c, ws[i]);
    }
    EntriesConcat(reg, tid, path, a, b);
    assert EntriesOf(reg, tid, path, b) == EntriesOf(reg, hop.target, path + [hop.item], ws);
  }

  lemma EntriesConcat(reg: Registry, tid: TypeId, path: seq<string>, a: seq<Walk>, b: seq<Walk>)
    requires AreWalks(reg, tid, a) && AreWalks(reg, tid, b)
    ensures AreWalks(reg, tid, a + b)
    ensures EntriesOf(reg, tid, path, a + b) == EntriesOf(reg, tid, path, a) + EntriesOf(reg, tid, path, b)
  {}

  // ---- edges by kind, in the order of the three loops ----

  lemma {:induction false} AttributeHopsPrefix(reg: Registry, tid: TypeId, i: nat, n: nat)
    requires i <= n <= |reg.Attributes(tid)|
    ensures reg.AttributeHops(tid, i) <= reg.AttributeHops(tid, n)
  {
    if i < n {
      AttributeHopsPrefix(reg, tid, i, n - 1);
    }
  }

  lemma {:induction false} ChildHopsPrefix(reg: Registry, tid: TypeId, i: nat, n: nat)
    requires i <= n <= |reg.registered|
    ensures reg.ChildHops(tid, i) <= reg.ChildHops(tid, n)
  {
    if i < n {
      ChildHopsPrefix(reg, tid, i, n - 1);
    }
  }

  lemma {:induction false} AggregateHopsPrefix(reg: Registry, tid: TypeId, i: nat, n: nat)
    requires i <= n <= |reg.aggregates|
    ensures reg.AggregateHops(tid, i) <= reg.AggregateHops(tid, n)
  {
    if i < n {
      AggregateHopsPrefix(reg, tid, i, n - 1);
    }
  }

  lemma AttributeHopsFirst(reg: Registry, tid: TypeId, i: nat)
    requires i <= |reg.Attributes(tid)|
    ensures reg.AttributeHops(tid, i) <= reg.Hops(tid)
  {
    var a, c := reg.AttributeHops(tid, |reg.Attributes(tid)|), reg.ChildHops(tid, |reg.registered|);
    AttributeHopsPrefix(reg, tid, i, |reg.Attributes(tid)|);
    S.PrefixOfConcat(reg.AttributeHops(tid, i), a, c);
    S.PrefixOfConcat(reg.AttributeHops(tid, i), a + c, reg.AggregateHops(tid, |reg.aggregates|));
  }

  /** All attributes and the first `j` registered types. */
  function UpToChild(reg: Registry, tid: TypeId, j: nat): seq<Hop>
    requires j <= |reg.registered|
  {
    reg.AttributeHops(tid, |reg.Attributes(tid)|) + reg.ChildHops(tid, j)
  }

  lemma ChildHopsSecond(reg: Registry, tid: TypeId, j: nat)
    requires j <= |reg.registered|
    ensures UpToChild(reg, tid, j) <= reg.Hops(tid)
  {
    ChildHopsPrefix(reg, tid, j, |reg.registered|);
    S.PrefixOfConcat(reg.ChildHops(tid, j), reg.ChildHops(tid, |reg.registered|),
                     reg.AttributeHops(tid, |reg.Attributes(tid)|));
    S.PrefixOfConcat(UpToChild(reg, tid, j), UpToChild(reg, tid, |reg.registered|),
                     reg.AggregateHops(tid, |reg.aggregates|));
  }

  /** All attributes and registered types and the first `k` aggregations. */
  function UpToAggregate(reg: Registry, tid: TypeId, k: nat): seq<Hop>
    requires k <= |reg.aggregates|
  {
    UpToChild(reg, tid, |reg.registered|) + reg.AggregateHops(tid, k)
  }

  lemma AggregateHopsThird(reg: Registry, tid: TypeId, k: nat)
    requires k <= |reg.aggregates|
    ensures UpToAggregate(reg, tid, k) <= reg.Hops(tid)
  {
    AggregateHopsPrefix(reg, tid, k, |reg.aggregates|);
    S.PrefixOfConcat(reg.AggregateHops(tid, k), reg.AggregateHops(tid, |reg.aggregates|),
                     UpToChild(reg, tid, |reg.registered|));
  }

  /** `hops`, none or one edge, stands in the list of all edges at place `c`. */
  predicate EdgeAt(reg: Registry, tid: TypeId, c: nat, hops: seq<Hop>) {
    && |hops| <= 1 && c + |hops| <= |reg.Hops(tid)|
    && (hops != [] ==> reg.Hops(tid)[c] == hops[0])
  }

  lemma EdgeAfterPrefix(reg: Registry, tid: TypeId, before: seq<Hop>, hops: seq<Hop>)
    requires |hops| <= 1 && before + hops <= reg.Hops(tid)
    ensures EdgeAt(reg, tid, |before|, hops)
  {
    if hops != [] {
      assert hops == [hops[0]];
      S.PrefixLast(before, hops[0], reg.Hops(tid));
    }
  }

  lemma AttributeEdge(reg: Registry, tid: TypeId, i: nat)
    requires i < |reg.Attributes(tid)|
    ensures EdgeAt(reg, tid, |reg.AttributeHops(tid, i)|, reg.AttributeHop(reg.Attributes(tid)[i]))
  {
    AttributeHopsFirst(reg, tid, i + 1);
    EdgeAfterPrefix(reg, tid, reg.AttributeHops(tid, i), reg.AttributeHop(reg.Attributes(tid)[i]));
  }

  lemma ChildEdge(reg: Registry, tid: TypeId, j: nat)
    requires j < |reg.registered|
    ensures EdgeAt(reg, tid, |UpToChild(reg, tid, j)|, reg.ChildHop(tid, reg.registered[j]))
    ensures |UpToChild(reg, tid, j + 1)| == |UpToChild(reg, tid, j)| + |reg.ChildHop(tid, reg.registered[j])|
  {
    ChildHopsSecond(reg, tid, j + 1);
    S.Assoc(reg.AttributeHops(tid, |reg.Attributes(tid)|), reg.ChildHops(tid, j), reg.ChildHop(tid, reg.registered[j]));
    EdgeAfterPrefix(reg, tid, UpToChild(reg, tid, j), reg.ChildHop(tid, reg.registered[j]));
  }

  lemma AggregateEdge(reg: Registry, tid: TypeId, k: nat)
    requires k < |reg.aggregates|
    ensures EdgeAt(reg, tid, |UpToAggregate(reg, tid, k)|, reg.AggregateHop(tid, reg.aggregates[k]))
    ensures |UpToAggregate(reg, tid, k + 1)|
         == |UpToAggregate(reg, tid, k)| + |reg.AggregateHop(tid, reg.aggregates[k])|
  {
    AggregateHopsThird(reg, tid, k + 1);
    S.Assoc(UpToChild(reg, tid, |reg.registered|), reg.AggregateHops(tid, k), reg.AggregateHop(tid, reg.aggregates[k]));
    EdgeAfterPrefix(reg, tid, UpToAggregate(reg, tid, k), reg.AggregateHop(tid, reg.aggregates[k]));
  }

  lemma OwnEntry(reg: Registry, tid: TypeId, path: seq<string>, avoid: set<TypeId>)
    requires reg.Closed() && tid in reg.types
    ensures Found(reg, tid, path, avoid, 0) == [Entry(tid, PathText(path))]
  {
    S.Empty(path);
    S.Empty<Walk>([[]]);
  }

  /** What gathering at a type aims at: the stacks to be left as they are, the output before, and
      what is to be found there up to each edge. */
  datatype Goal = Goal(path: seq<string>, stack: seq<TypeId>, base: seq<Entry>, found: nat -> seq<Entry>)

  ghost predicate Aims(reg: Registry, tid: TypeId, goal: Goal) {
    && reg.Closed() && tid in reg.types && tid !in goal.stack
    && forall c {:trigger Found(reg, tid, goal.path, S.Elements(goal.stack) + {tid}, c)} ::
         0 <= c <= |reg.Hops(tid)| ==> goal.found(c) == Found(reg, tid, goal.path, S.Elements(goal.stack) + {tid}, c)
  }

  class StaticInformation {
    const reg: Registry
    var output: seq<Entry>
    var currentPath: seq<string>
    var alreadyProcessed: seq<TypeId>

    constructor (reg: Registry)
      ensures this.reg == reg && output == [] && currentPath == [] && alreadyProcessed == []
    {
      this.reg, output, currentPath, alreadyProcessed := reg, [], [], [];
    }

    method GetCurrentPath() returns (text: string)
      ensures text == PathText(currentPath)
    {
      text := "";
      for i := 0 to |currentPath|
        invariant text == PathText(currentPath[..i])
      {
        assert currentPath[..i + 1][..i] == currentPath[..i];
        text := text + "/" + currentPath[i];
      }
      assert currentPath[..|currentPath|] == currentPath;
    }

    method RecordOutput(tid: TypeId)
      modifies this`output
      ensures output == old(output) + [Entry(tid, PathText(currentPath))]
    {
      var text := GetCurrentPath();
      output := output + [Entry(tid, text)];
    }

    method HasAlreadyBeenProcessed(tid: TypeId) returns (processed: bool)
      ensures processed <==> tid in alreadyProcessed
    {
      for i := 0 to |alreadyProcessed|
        invariant tid !in alreadyProcessed[..i]
      {
        if alreadyProcessed[i] == tid {
          return true;
        }
      }
      return false;
    }

    ghost predicate At(goal: Goal, c: nat)
      reads this
    {
      currentPath == goal.path && alreadyProcessed == goal.stack && output == goal.base + goal.found(c)
    }

    /** Goes along edge number `c` of `tid` with both stacks pushed, and pops them again. */
    method Follow(tid: TypeId, hop: Hop, ghost c: nat, ghost goal: Goal)
      requires Aims(reg, tid, goal) && At(goal, c)
      requires c < |reg.Hops(tid)| && reg.Hops(tid)[c] == hop
      modifies this
      ensures At(goal, c + 1)
      decreases |reg.types - S.Elements(goal.stack)|, 0
    {
      ghost var path, avoid := goal.path, S.Elements(goal.stack) + {tid};
      currentPath := currentPath + [hop.item];
      alreadyProcessed := alreadyProcessed + [tid];
      assert S.Elements(alreadyProcessed) == avoid;
      assert reg.types - avoid == reg.types - S.Elements(goal.stack) - {tid};
      DoGather(hop.target);
      alreadyProcessed := alreadyProcessed[..|alreadyProcessed| - 1];
      currentPath := currentPath[..|currentPath| - 1];
      FoundNext(reg, tid, path, avoid, c);
      S.Assoc(goal.base, Found(reg, tid, path, avoid, c),
              EntriesOf(reg, hop.target, path + [hop.item], Walks(reg, hop.target, avoid)));
    }

    /** Goes along the edge in `hops`, if there is one. */
    method FollowAny(tid: TypeId, hops: seq<Hop>, ghost c: nat, ghost goal: Goal)
      requires Aims(reg, tid, goal) && At(goal, c)
      requires EdgeAt(reg, tid, c, hops)
      modifies this
      ensures At(goal, c + |hops|)
      decreases |reg.types - S.Elements(goal.stack)|, 1
    {
      if hops != [] {
        Follow(tid, hops[0], c, goal);
      }
    }

    /** The attributes that are pointers or containers. */
    method GatherAttributes(tid: TypeId, ghost c: nat, ghost goal: Goal) returns (ghost c': nat)
      requires Aims(reg, tid, goal) && At(goal, c)
      requires c == 0
      modifies this
      ensures c' == |reg.AttributeHops(tid, |reg.Attributes(tid)|)| && At(goal, c')
      decreases |reg.types - S.Elements(goal.stack)|, 2
    {
      c' := c;
      for i := 0 to |reg.Attributes(tid)|
        invariant c' == |reg.AttributeHops(tid, i)| && At(goal, c')
      {
        AttributeEdge(reg, tid, i);
        var hops := reg.AttributeHop(reg.Attributes(tid)[i]);
        FollowAny(tid, hops, c', goal);
        c' := c' + |hops|;
      }
    }

    /** The registered types that derive from `tid`. */
    method GatherChildren(tid: TypeId, ghost c: nat, ghost goal: Goal) returns (ghost c': nat)
      requires Aims(reg, tid, goal) && At(goal, c)
      requires c == |reg.AttributeHops(tid, |reg.Attributes(tid)|)|
      modifies this
      ensures c' == |UpToChild(reg, tid, |reg.registered|)| && At(goal, c')
      decreases |reg.types - S.Elements(goal.stack)|, 2
    {
      c' := c;
      for j := 0 to |reg.registered|
        invariant c' == |UpToChild(reg, tid, j)| && At(goal, c')
      {
        ChildEdge(reg, tid, j);
        var hops := reg.ChildHop(tid, reg.registered[j]);
        FollowAny(tid, hops, c', goal);
        c' := c' + |hops|;
      }
    }

    /** The types aggregated with `tid`. */
    method GatherAggregates(tid: TypeId, ghost c: nat, ghost goal: Goal) returns (ghost c': nat)
      requires Aims(reg, tid, goal) && At(goal, c)
      requires c == |UpToChild(reg, tid, |reg.registered|)|
      modifies this
      ensures c' == |UpToAggregate(reg, tid, |reg.aggregates|)| && At(goal, c')
      decreases |reg.types - S.Elements(goal.stack)|, 2
    {
      c' := c;
      for k := 0 to |reg.aggregates|
        invariant c' == |UpToAggregate(reg, tid, k)| && At(goal, c')
      {
        AggregateEdge(reg, tid, k);
        var hops := reg.AggregateHop(tid, reg.aggregates[k]);
        FollowAny(tid, hops, c', goal);
        c' := c' + |hops|;
      }
    }

    /** Appends one entry for every simple walk from `tid` through types not being processed,
        with the text of the path so far and of the walk, and leaves both stacks as they were. */
    method DoGather(tid: TypeId)
      requires reg.Closed() && tid in reg.types
      modifies this
      ensures currentPath == old(currentPath) && alreadyProcessed == old(alreadyProcessed)
      ensures AreWalks(reg, tid, Walks(reg, tid, S.Elements(alreadyProcessed)))
      ensures output == old(output) + EntriesOf(reg, tid, currentPath, Walks(reg, tid, S.Elements(alreadyProcessed)))
      decreases |reg.types - S.Elements(alreadyProcessed)|, 3
    {
      WalksAreWalks(reg, tid, S.Elements(alreadyProcessed));
      var processed := HasAlreadyBeenProcessed(tid);
      if processed {
        assert EntriesOf(reg, tid, currentPath, []) == [];
        S.Empty(output);
        return;
      }
      ghost var path, avoid := currentPath, S.Elements(alreadyProcessed) + {tid};
      ghost var found := c => if 0 <= c <= |reg.Hops(tid)| then Found(reg, tid, path, avoid, c) else [];
      ghost var goal := Goal(path, alreadyProcessed, output, found);
      RecordOutput(tid);
      OwnEntry(reg, tid, path, avoid);
      ghost var c := GatherAttributes(tid, 0, goal);
      c := GatherChildren(tid, c, goal);
      c := GatherAggregates(tid, c, goal);
      assert goal.found(c) == Found(reg, tid, path, avoid, c);
    }

    /** The paths recorded for a type, in the order in which they were. */
    method Get(tid: TypeId) returns (paths: seq<string>)
      ensures paths == PathsOf(output, tid)
    {
      paths := [];
      for i := 0 to |output|
        invariant paths == PathsOf(output[..i], tid)
      {
        assert output[..i + 1][..i] == output[..i];
        if output[i].tid == tid {
          paths := paths + [output[i].path];
        }
      }
      assert output[..|output|] == output;
    }
  }

  function PathsOf(entries: seq<Entry>, tid: TypeId): seq<string> {
    if entries == [] then []
    else
      var last := entries[|entries| - 1];
      PathsOf(entries[..|entries| - 1], tid) + if last.tid == tid then [last.path] else []
  }

  /** As many as there are entries of the type, and each the path of one, in their order. */
  lemma {:induction false} PathsOfEntries(entries: seq<Entry>, tid: TypeId)
    ensures var those := S.Filter(entries, (e: Entry) => e.tid == tid);
            && |PathsOf(entries, tid)| == |those|
            && forall k :: 0 <= k < |those| ==> PathsOf(entries, tid)[k] == those[k].path
  {
    if entries != [] {
      PathsOfEntries(entries[..|entries| - 1], tid);
    }
  }

  lemma {:induction false} InPathsOf(entries: seq<Entry>, tid: TypeId, path: string)
    ensures path in PathsOf(entries, tid) <==> Entry(tid, path) in entries
  {
    if entries != [] {
      var n := |entries| - 1;
      InPathsOf(entries[..n], tid, path);
      assert entries == entries[..n] + [entries[n]];
    }
  }

  /** Gathering from `root` with nothing recorded yet and then asking for a type gives exactly
      the texts of the simple walks from `root` that end there. */
  method PathsBetween(reg: Registry, root: TypeId, tid: TypeId) returns (paths: seq<string>)
    requires reg.Closed() && root in reg.types
    ensures forall path :: path in paths <==>
              exists w :: IsSimpleWalk(reg, root, {}, w) && EntryOf(reg, root, [], w) == Entry(tid, path)
  {
    var info := new StaticInformation(reg);
    assert S.Elements<TypeId>([]) == {};
    info.DoGather(root);
    ghost var ws := Walks(reg, root, {});
    S.Empty(info.output);
    assert info.output == EntriesOf(reg, root, [], ws);
    paths := info.Get(tid);
    forall path
      ensures path in paths <==>
              exists w :: IsSimpleWalk(reg, root, {}, w) && EntryOf(reg, root, [], w) == Entry(tid, path)
    {
      InPathsOf(info.output, tid, path);
      EntryOfSomeWalk(reg, root, ws, Entry(tid, path));
    }
  }

  lemma EntryOfSomeWalk(reg: Registry, root: TypeId, ws: seq<Walk>, entry: Entry)
    requires reg.Closed() && root in reg.types && ws == Walks(reg, root, {}) && AreWalks(reg, root, ws)
    ensures entry in EntriesOf(reg, root, [], ws) <==>
            exists w :: IsSimpleWalk(reg, root, {}, w) && EntryOf(reg, root, [], w) == entry
  {
    var entries := EntriesOf(reg, root, [], ws);
    if entry in entries {
      var i :| 0 <= i < |entries| && entries[i] == entry;
      assert ws[i] in ws;
      WalksAreTheSimpleOnes(reg, root, {}, ws[i]);
    }
    if w :| IsSimpleWalk(reg, root, {}, w) && EntryOf(reg, root, [], w) == entry {
      WalksAreTheSimpleOnes(reg, root, {}, w);
      var i :| 0 <= i < |ws| && ws[i] == w;
      assert entries[i] == entry;
    }
  }
}
