/** The sort of a list that a library provides, by a number each element has. */
module ListSort {
  import S = Sequences

  predicate SortedBy<T(!new)>(s: seq<T>, key: T -> real) {
    forall i, j :: 0 <= i < j < |s| ==> key(s[i]) <= key(s[j])
  }

  lemma Ordered<T(!new)>(s: seq<T>, key: T -> real, i: int, j: int)
    requires SortedBy(s, key)
    ensures 0 <= i <= j < |s| ==> key(s[i]) <= key(s[j])
  {}

  lemma SortedConcat<T(!new)>(s: seq<T>, t: seq<T>, key: T -> real)
    requires SortedBy(s, key) && SortedBy(t, key)
    requires s != [] && t != [] ==> key(s[|s| - 1]) <= key(t[0])
    ensures SortedBy(s + t, key)
  {
    forall i, j | 0 <= i < j < |s + t| ensures key((s + t)[i]) <= key((s + t)[j]) {
      Ordered(s, key, i, |s| - 1);
      Ordered(t, key, 0, j - |s|);
    }
  }

  /** An element between those with smaller and those with larger keys. */
  lemma InsertSorted<T(!new)>(s: seq<T>, key: T -> real, k: nat, x: T)
    requires SortedBy(s, key) && k <= |s|
    requires (k > 0 ==> key(s[k - 1]) <= key(x)) && (k < |s| ==> key(x) <= key(s[k]))
    ensures var t := s[..k] + [x] + s[k..]; SortedBy(t, key) && multiset(t) == multiset(s) + multiset{x}
  {
    SortedConcat(s[..k], [x], key);
    SortedConcat(s[..k] + [x], s[k..], key);
    SameElements(s[..k], x, s[k..]);
    assert s == s[..k] + s[k..];
  }

  lemma SameElements<T>(s: seq<T>, x: T, t: seq<T>)
    ensures multiset(s + [x] + t) == multiset(s + t) + multiset{x}
  {}

  /** The elements with one key, in the order in which they stand. */
  function WithKey<T(!new)>(s: seq<T>, key: T -> real, at: real): seq<T> {
    S.Filter(s, x => key(x) == at)
  }

  lemma WithKeyConcat<T(!new)>(s: seq<T>, t: seq<T>, key: T -> real, at: real)
    ensures WithKey(s + t, key, at) == WithKey(s, key, at) + WithKey(t, key, at)
  {
    S.FilterConcat(s, t, x => key(x) == at);
  }

  lemma NoneWithKey<T(!new)>(s: seq<T>, key: T -> real, at: real)
    requires forall i :: 0 <= i < |s| ==> key(s[i]) != at
    ensures WithKey(s, key, at) == []
  {
    S.FilterNone(s, x => key(x) == at);
  }

  /** Putting an element behind all that have its key leaves it the last of them. */
  lemma InsertLast<T(!new)>(s: seq<T>, key: T -> real, k: nat, x: T, at: real)
    requires SortedBy(s, key) && k <= |s| && (k < |s| ==> key(x) < key(s[k]))
    ensures WithKey(s[..k] + [x] + s[k..], key, at) == WithKey(s + [x], key, at)
  {
    var a, b := s[..k], s[k..];
    WithKeyConcat(a + [x], b, key, at);
    WithKeyConcat(a, [x], key, at);
    WithKeyConcat(a, b, key, at);
    WithKeyConcat(s, [x], key, at);
    assert s == a + b;
    if key(x) == at {
      forall i | 0 <= i < |b| ensures key(b[i]) != at {
        Ordered(s, key, k, k + i);
      }
      NoneWithKey(b, key, at);
    } else {
      NoneWithKey([x], key, at);
    }
  }

  lemma StaysStable<T(!new)>(s: seq<T>, key: T -> real, k: nat, x: T, l: seq<T>)
    requires SortedBy(s, key) && k <= |s| && (k < |s| ==> key(x) < key(s[k]))
    requires forall at :: WithKey(s, key, at) == WithKey(l, key, at)
    ensures forall at :: WithKey(s[..k] + [x] + s[k..], key, at) == WithKey(l + [x], key, at)
  {
    forall at ensures WithKey(s[..k] + [x] + s[k..], key, at) == WithKey(l + [x], key, at) {
      InsertLast(s, key, k, x, at);
      WithKeyConcat(s, [x], key, at);
      WithKeyConcat(l, [x], key, at);
    }
  }

  /** Sorted, with the same elements, and those of the same key in the order they had. */
  method SortBy<T(!new)>(l: seq<T>, key: T -> real) returns (s: seq<T>)
    ensures SortedBy(s, key) && multiset(s) == multiset(l)
    ensures forall at :: WithKey(s, key, at) == WithKey(l, key, at)
  {
    s := [];
    for i := 0 to |l|
      invariant SortedBy(s, key) && multiset(s) == multiset(l[..i])
      invariant forall at :: WithKey(s, key, at) == WithKey(l[..i], key, at)
    {
      var k := |s|;
      while k > 0 && key(l[i]) < key(s[k - 1])
        invariant 0 <= k <= |s|
        invariant k < |s| ==> key(l[i]) < key(s[k])
      {
        k := k - 1;
      }
      InsertSorted(s, key, k, l[i]);
      assert l[..i + 1] == l[..i] + [l[i]];
      StaysStable(s, key, k, l[i], l[..i]);
      s := s[..k] + [l[i]] + s[k..];
    }
    assert l[..|l|] == l;
  }
}
