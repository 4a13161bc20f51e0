/** The in-place bucket sort of numbers between 0 and 1, and the binary search in sorted numbers. */
module Sorting {
  import opened ListSort

  predicate Sorted(s: seq<real>) {
    SortedBy(s, Itself)
  }

  function Itself(x: real): real {
    x
  }

  /** What the sort may be given: anything else has no bucket. */
  predicate InUnitInterval(s: seq<real>) {
    forall i :: 0 <= i < |s| ==> 0.0 <= s[i] < 1.0
  }

  /** The bucket of a number among `n`. */
  function Index(x: real, n: nat): int {
    (x * n as real).Floor
  }

  /** A number has one of the `n` buckets exactly when it is at least 0 and less than 1. */
  lemma IndexInBounds(x: real, n: nat)
    requires n > 0
    ensures 0 <= Index(x, n) < n <==> 0.0 <= x < 1.0
  {
    var r := n as real;
    if x < 0.0 {
      Scaled(x, 0.0, r);
    } else if x < 1.0 {
      Scaled(x, 1.0, r);
    } else {
      assert x * r >= 1.0 * r;
    }
  }

  /** Bucket `k` is for the numbers from `k / n` on and below `(k + 1) / n`. */
  lemma BucketIs(x: real, n: nat, k: int)
    requires n > 0
    ensures Index(x, n) == k <==> k as real <= x * n as real < (k + 1) as real
  {}

  lemma Scaled(x: real, y: real, r: real)
    requires x < y && r > 0.0
    ensures x * r < y * r
  {}

  /** Larger numbers are in no earlier bucket. */
  lemma IndexOrdered(x: real, y: real, n: nat)
    requires x <= y
    ensures Index(x, n) <= Index(y, n)
  {
    assert x * n as real <= y * n as real;
  }

  // ---- the buckets one after the other ----

  function Flat(b: seq<seq<real>>): seq<real> {
    if b == [] then [] else Flat(b[..|b| - 1]) + b[|b| - 1]
  }

  predicate SameNumbers(b: seq<seq<real>>, c: seq<seq<real>>) {
    |b| == |c| && forall k :: 0 <= k < |b| ==> multiset(b[k]) == multiset(c[k])
  }

  lemma FlatPrefix(b: seq<seq<real>>, k: nat)
    requires k < |b|
    ensures Flat(b[..k + 1]) == Flat(b[..k]) + b[k]
  {
    assert b[..k + 1][..k] == b[..k];
  }

  lemma {:induction false} FlatNoLonger(b: seq<seq<real>>, k: nat)
    requires k <= |b|
    ensures |Flat(b[..k])| <= |Flat(b)|
    decreases |b| - k
  {
    if k == |b| {
      assert b[..k] == b;
    } else {
      FlatPrefix(b, k);
      FlatNoLonger(b, k + 1);
    }
  }

  lemma {:induction false} FlatSameNumbers(b: seq<seq<real>>, c: seq<seq<real>>)
    requires SameNumbers(b, c)
    ensures multiset(Flat(b)) == multiset(Flat(c))
  {
    if b != [] {
      FlatSameNumbers(b[..|b| - 1], c[..|c| - 1]);
    }
  }

  /** One more number in front of bucket `k`. */
  lemma {:induction false} FlatInsert(b: seq<seq<real>>, k: nat, x: real)
    requires k < |b|
    ensures multiset(Flat(b[k := [x] + b[k]])) == multiset(Flat(b)) + multiset{x}
  {
    var c := b[k := [x] + b[k]];
    var last := |b| - 1;
    if k == last {
      assert c[..last] == b[..last];
    } else {
      assert c[..last] == b[..last][k := [x] + b[..last][k]];
      FlatInsert(b[..last], k, x);
    }
  }

  lemma {:induction false} FlatOfEmpty(b: seq<seq<real>>)
    requires forall k :: 0 <= k < |b| ==> b[k] == []
    ensures Flat(b) == []
  {
    if b != [] {
      FlatOfEmpty(b[..|b| - 1]);
    }
  }

  /** Every number stands in its own bucket. */
  predicate Placed(b: seq<seq<real>>, n: nat) {
    forall k :: 0 <= k < |b| ==> forall i :: 0 <= i < |b[k]| ==> Index(b[k][i], n) == k
  }

  predicate AllSorted(b: seq<seq<real>>) {
    forall k :: 0 <= k < |b| ==> Sorted(b[k])
  }

  /** Sorted buckets one after the other are sorted. */
  lemma {:induction false} FlatSorted(b: seq<seq<real>>, n: nat)
    requires Placed(b, n) && AllSorted(b)
    ensures Sorted(Flat(b))
    ensures forall i :: 0 <= i < |Flat(b)| ==> Index(Flat(b)[i], n) < |b|
  {
    if b != [] {
      var last := |b| - 1;
      var front, bucket := b[..last], b[last];
      FlatSorted(front, n);
      assert Sorted(bucket);
      forall i, j | 0 <= i < |Flat(front)| && 0 <= j < |bucket| ensures Flat(front)[i] <= bucket[j] {
        var x, y := Flat(front)[i], bucket[j];
        if y < x {
          IndexOrdered(y, x, n);
          assert false;
        }
      }
    }
  }

  lemma OneMoreSorted(b: seq<seq<real>>, filled: seq<seq<real>>, i: nat, list: seq<real>)
    requires SameNumbers(b, filled) && i < |b| && AllSorted(b[..i])
    requires Sorted(list) && multiset(list) == multiset(b[i])
    ensures var c := b[i := list]; SameNumbers(c, filled) && AllSorted(c[..i + 1]) && c[..i] == b[..i]
  {
    var c := b[i := list];
    assert c[..i + 1] == b[..i] + [list];
    assert c[..i] == b[..i];
  }

  /** There is room for the next bucket. */
  lemma NumbersLeft(b: seq<seq<real>>, filled: seq<seq<real>>, i: nat)
    requires SameNumbers(b, filled) && i < |b|
    ensures Flat(b[..i + 1]) == Flat(b[..i]) + b[i]
    ensures |Flat(b[..i + 1])| <= |Flat(filled)|
  {
    FlatPrefix(b, i);
    FlatNoLonger(b, i + 1);
    FlatSameNumbers(b, filled);
    SameLength(Flat(b), Flat(filled));
  }

  lemma SameLength(s: seq<real>, t: seq<real>)
    requires multiset(s) == multiset(t)
    ensures |s| == |t|
  {
    assert |multiset(s)| == |multiset(t)|;
  }

  lemma SortedBuckets(b: seq<seq<real>>, filled: seq<seq<real>>, n: nat)
    requires SameNumbers(b, filled) && AllSorted(b) && Placed(filled, n)
    ensures Sorted(Flat(b)) && multiset(Flat(b)) == multiset(Flat(filled))
  {
    forall k, i | 0 <= k < |b| && 0 <= i < |b[k]| ensures Index(b[k][i], n) == k {
      assert b[k][i] in multiset(b[k]);
      assert b[k][i] in filled[k];
    }
    FlatSorted(b, n);
    FlatSameNumbers(b, filled);
  }

  lemma PlaceOneMore(b: seq<seq<real>>, k: nat, x: real, n: nat)
    requires Placed(b, n) && k < |b| && Index(x, n) == k
    ensures Placed(b[k := [x] + b[k]], n)
    ensures multiset(Flat(b[k := [x] + b[k]])) == multiset(Flat(b)) + multiset{x}
  {
    FlatInsert(b, k, x);
    var c := b[k := [x] + b[k]];
    forall m, i | 0 <= m < |c| && 0 <= i < |c[m]| ensures Index(c[m][i], n) == m {
      if m == k && i > 0 {
        assert c[m][i] == b[m][i - 1];
      }
    }
  }

  // ---- the sort ----

  /** Puts a number in front of its bucket. */
  method PutInBucket(b: array<seq<real>>, x: real)
    requires 0.0 <= x < 1.0 && b.Length > 0 && Placed(b[..], b.Length)
    modifies b
    ensures Placed(b[..], b.Length) && multiset(Flat(b[..])) == multiset(Flat(old(b[..]))) + multiset{x}
  {
    IndexInBounds(x, b.Length);
    var index := (x * b.Length as real).Floor;
    PlaceOneMore(b[..], index, x, b.Length);
    ghost var was := b[..];
    b[index] := [x] + b[index];
    assert b[..] == was[index := [x] + was[index]];
  }

  method FillBuckets(a: array<real>) returns (b: array<seq<real>>)
    requires InUnitInterval(a[..])
    ensures fresh(b) && b.Length == a.Length
    ensures Placed(b[..], a.Length) && multiset(Flat(b[..])) == multiset(a[..])
  {
    b := new seq<real>[a.Length](_ => []);
    FlatOfEmpty(b[..]);
    for it := 0 to a.Length
      invariant Placed(b[..], a.Length) && multiset(Flat(b[..])) == multiset(a[..it])
    {
      assert 0.0 <= a[..][it] < 1.0;
      PutInBucket(b, a[it]);
      assert a[..it + 1] == a[..it] + [a[it]];
    }
    assert a[..a.Length] == a[..];
  }

  /** Writes a list over `a` from place `j` on. */
  method WriteList(a: array<real>, j: nat, l: seq<real>) returns (j': nat)
    requires j + |l| <= a.Length
    modifies a
    ensures j' == j + |l| && a[..j'] == old(a[..j]) + l
  {
    j' := j;
    for li := 0 to |l|
      invariant j' == j + li && a[..j'] == old(a[..j]) + l[..li]
    {
      a[j'] := l[li];
      j' := j' + 1;
    }
    assert l[..|l|] == l;
  }

  method BucketSort(a: array<real>)
    requires InUnitInterval(a[..])
    modifies a
    ensures Sorted(a[..]) && multiset(a[..]) == multiset(old(a[..]))
  {
    ghost var numbers := a[..];
    var b := FillBuckets(a);
    ghost var filled := b[..];
    SameLength(Flat(filled), numbers);
    var j: nat := 0;
    for i := 0 to a.Length
      invariant b.Length == a.Length && SameNumbers(b[..], filled)
      invariant AllSorted(b[..i])
      invariant j <= a.Length && a[..j] == Flat(b[..i])
    {
      var list := SortBy(b[i], Itself);
      ghost var was := b[..];
      b[i] := list;
      assert b[..] == was[i := list];
      OneMoreSorted(was, filled, i, list);
      NumbersLeft(b[..], filled, i);
      j := WriteList(a, j, b[i]);
    }
    assert b[..a.Length] == b[..];
    SortedBuckets(b[..], filled, a.Length);
    SameLength(Flat(b[..]), numbers);
    assert a[..j] == a[..];
  }

  lemma LastIsLargest(s: seq<real>, t: seq<real>)
    requires Sorted(s) && s != [] && t != [] && multiset(s) == multiset(t)
    ensures t[|t| - 1] <= s[|s| - 1]
  {
    var x := t[|t| - 1];
    assert x in multiset(s);
    var i :| 0 <= i < |s| && s[i] == x;
    Ordered(s, Itself, i, |s| - 1);
  }

  lemma WithoutLast(s: seq<real>)
    requires s != []
    ensures var last := |s| - 1; s[..last] + [s[last]] == s && multiset(s[..last]) == multiset(s) - multiset{s[last]}
  {
    assert s[..|s| - 1] + [s[|s| - 1]] == s;
  }

  /** There is one sorted order only, so any other sort would leave the same numbers at the same
      places. */
  lemma {:induction false} SortedOnce(s: seq<real>, t: seq<real>)
    requires Sorted(s) && Sorted(t) && multiset(s) == multiset(t)
    ensures s == t
  {
    SameLength(s, t);
    if s != [] {
      var last := |s| - 1;
      LastIsLargest(s, t);
      LastIsLargest(t, s);
      WithoutLast(s);
      WithoutLast(t);
      SortedOnce(s[..last], t[..last]);
    }
  }

  // ---- the search ----

  /** The place in `l..h` that splits the numbers there: none before it reaches `value`, and it
      is `h` or holds a number that does. The number at `h` is never looked at. */
  function BinarySearch(a: seq<real>, l: nat, h: nat, value: real): (r: nat)
    requires l <= h <= |a|
    ensures l <= r <= h
    ensures l < r ==> a[r - 1] < value
    ensures r < h ==> value <= a[r]
    decreases h - l
  {
    var mid := (h + l) / 2;
    if l == h then mid
    else if a[mid] < value then BinarySearch(a, mid + 1, h, value)
    else BinarySearch(a, l, mid, value)
  }

  /** In sorted numbers the search finds the only place where the value can be put between
      smaller numbers and numbers at least as large; sortedness is kept by putting it there. */
  lemma SearchInSorted(a: seq<real>, value: real, r: nat)
    requires Sorted(a) && r <= |a|
    ensures r == BinarySearch(a, 0, |a|, value)
       <==> (forall i :: 0 <= i < |a| ==> (a[i] < value <==> i < r))
    ensures r == BinarySearch(a, 0, |a|, value) ==> Sorted(a[..r] + [value] + a[r..])
  {
    var s := BinarySearch(a, 0, |a|, value);
    forall i | 0 <= i < |a| ensures a[i] < value <==> i < s {
      Ordered(a, Itself, i, s - 1);
      Ordered(a, Itself, s, i);
    }
    if r < s {
      assert a[r] < value;
    } else if s < r {
      assert !(a[s] < value);
    } else {
      InsertSorted(a, Itself, r, value);
    }
  }
}
