/** Facts about sequences, stated once so that proofs over larger terms need not rediscover
    them element by element. */
module Sequences {
  predicate NoRepeats<T(==)>(s: seq<T>) {
    forall i, j :: 0 <= i < j < |s| ==> s[i] != s[j]
  }

  function Elements<T(==)>(s: seq<T>): set<T> {
    set x | x in s
  }

  lemma Assoc<T>(a: seq<T>, b: seq<T>, c: seq<T>)
    ensures (a + b) + c == a + (b + c)
  {}

  lemma Empty<T>(a: seq<T>)
    ensures [] + a == a && a + [] == a
  {}

  /** The first element and the rest of a concatenation. */
  lemma HeadTail<T>(a: seq<T>, b: seq<T>)
    requires a != []
    ensures (a + b)[0] == a[0] && (a + b)[1..] == a[1..] + b
  {}

  lemma Cons<T>(x: T, a: seq<T>)
    ensures ([x] + a)[0] == x && ([x] + a)[1..] == a
  {}

  lemma Uncons<T>(a: seq<T>)
    requires a != []
    ensures [a[0]] + a[1..] == a
  {}

  lemma InConcat<T>(x: T, a: seq<T>, b: seq<T>)
    ensures x in a + b <==> x in a || x in b
  {}

  lemma PrefixOfConcat<T>(a: seq<T>, b: seq<T>, c: seq<T>)
    requires a <= b
    ensures a <= b + c && c + a <= c + b
  {}

  /** What a prefix ends with stands in the whole sequence at the same place. */
  lemma PrefixLast<T>(a: seq<T>, x: T, whole: seq<T>)
    requires a + [x] <= whole
    ensures |a| < |whole| && whole[|a|] == x && a <= whole
  {
    assert (a + [x])[|a|] == x;
  }

  /** The elements to be kept, in order. */
  function Filter<T(!new)>(s: seq<T>, keep: T -> bool): seq<T> {
    if s == [] then [] else Filter(s[..|s| - 1], keep) + if keep(s[|s| - 1]) then [s[|s| - 1]] else []
  }

  lemma {:induction false} FilterConcat<T(!new)>(s: seq<T>, t: seq<T>, keep: T -> bool)
    ensures Filter(s + t, keep) == Filter(s, keep) + Filter(t, keep)
  {
    if t == [] {
      assert s + t == s;
    } else {
      var last := |t| - 1;
      assert (s + t)[..|s| + last] == s + t[..last];
      FilterConcat(s, t[..last], keep);
    }
  }

  lemma {:induction false} FilterNone<T(!new)>(s: seq<T>, keep: T -> bool)
    requires forall i :: 0 <= i < |s| ==> !keep(s[i])
    ensures Filter(s, keep) == []
  {
    if s != [] {
      FilterNone(s[..|s| - 1], keep);
    }
  }

  lemma {:induction false} FilterKeeps<T(!new)>(s: seq<T>, keep: T -> bool)
    ensures forall x :: x in Filter(s, keep) <==> x in s && keep(x)
  {
    if s != [] {
      var last := |s| - 1;
      FilterKeeps(s[..last], keep);
      assert s == s[..last] + [s[last]];
    }
  }

  lemma {:induction false} FilterAll<T(!new)>(s: seq<T>, keep: T -> bool)
    requires forall i :: 0 <= i < |s| ==> keep(s[i])
    ensures Filter(s, keep) == s
  {
    if s != [] {
      var last := |s| - 1;
      FilterAll(s[..last], keep);
      assert s == s[..last] + [s[last]];
    }
  }

  lemma Parts<T>(s: seq<T>, lo: nat, hi: nat)
    requires lo <= hi <= |s|
    ensures s == (s[..lo] + s[lo..hi]) + s[hi..]
  {}

  /** When the elements kept are those at the places from `lo` to `hi`, the slice is what is kept. */
  lemma FilterIsSlice<T(!new)>(s: seq<T>, keep: T -> bool, lo: nat, hi: nat)
    requires lo <= hi <= |s|
    requires forall k :: 0 <= k < |s| ==> (keep(s[k]) <==> lo <= k < hi)
    ensures Filter(s, keep) == s[lo..hi]
  {
    Parts(s, lo, hi);
    var a, b, c := s[..lo], s[lo..hi], s[hi..];
    FilterConcat(a + b, c, keep);
    FilterConcat(a, b, keep);
    Outside(s, keep, lo, hi);
    FilterNone(a, keep);
    FilterAll(b, keep);
    FilterNone(c, keep);
    Empty(b);
  }

  lemma Outside<T(!new)>(s: seq<T>, keep: T -> bool, lo: nat, hi: nat)
    requires lo <= hi <= |s|
    requires forall k :: 0 <= k < |s| ==> (keep(s[k]) <==> lo <= k < hi)
    ensures forall i :: 0 <= i < lo ==> !keep(s[..lo][i])
    ensures forall i :: 0 <= i < hi - lo ==> keep(s[lo..hi][i])
    ensures forall i :: 0 <= i < |s| - hi ==> !keep(s[hi..][i])
  {}

  /** The places of the elements that have a property. */
  function Places<T>(s: seq<T>, p: T -> bool): set<int> {
    set i | 0 <= i < |s| && p(s[i])
  }

  lemma PlacesGrow<T>(s: seq<T>, p: T -> bool)
    requires s != []
    ensures |Places(s, p)| == |Places(s[..|s| - 1], p)| + if p(s[|s| - 1]) then 1 else 0
  {
    var n := |s| - 1;
    var before := Places(s[..n], p);
    assert Places(s, p) == if p(s[n]) then before + {n} else before;
  }
}
