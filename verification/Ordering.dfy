/** Orders and sorting shared by the views. Go compares strings byte by byte; the sources sort by strings, by pairs and
    by triples of strings, so a sort key is a sequence of strings here. */
module Ordering {

  /** Strict lexicographic order on strings (Go's `<` on string). */
  predicate Before(a: string, b: string)
    decreases |a|
  {
    if b == [] then false
    else if a == [] then true
    else if a[0] != b[0] then a[0] < b[0]
    else Before(a[1..], b[1..])
  }

  lemma {:induction false} BeforeIrreflexive(a: string)
    ensures !Before(a, a)
  {
    if a != [] { BeforeIrreflexive(a[1..]); }
  }

  lemma {:induction false} BeforeTransitive(a: string, b: string, c: string)
    requires Before(a, b) && Before(b, c)
    ensures Before(a, c)
    decreases |a|
  {
    if a != [] && a[0] == b[0] && b[0] == c[0] { BeforeTransitive(a[1..], b[1..], c[1..]); }
  }

  lemma {:induction false} BeforeConnected(a: string, b: string)
    requires a != b
    ensures Before(a, b) || Before(b, a)
    decreases |a|
  {
    if a != [] && b != [] && a[0] == b[0] {
      assert a == [a[0]] + a[1..] && b == [b[0]] + b[1..];
      BeforeConnected(a[1..], b[1..]);
    }
  }

  /** Strict lexicographic order on keys made of several strings. */
  predicate KeyBefore(a: seq<string>, b: seq<string>)
    decreases |a|
  {
    if b == [] then false
    else if a == [] then true
    else if a[0] != b[0] then Before(a[0], b[0])
    else KeyBefore(a[1..], b[1..])
  }

  lemma {:induction false} KeyBeforeIrreflexive(a: seq<string>)
    ensures !KeyBefore(a, a)
  {
    if a != [] { KeyBeforeIrreflexive(a[1..]); }
  }

  lemma {:induction false} KeyBeforeTransitive(a: seq<string>, b: seq<string>, c: seq<string>)
    requires KeyBefore(a, b) && KeyBefore(b, c)
    ensures KeyBefore(a, c)
    decreases |a|
  {
    if a != [] {
      if a[0] == b[0] {
        if b[0] == c[0] { KeyBeforeTransitive(a[1..], b[1..], c[1..]); }
      } else if b[0] != c[0] {
        BeforeTransitive(a[0], b[0], c[0]);
        BeforeIrreflexive(a[0]);
      }
    }
  }

  lemma {:induction false} KeyBeforeConnected(a: seq<string>, b: seq<string>)
    requires a != b
    ensures KeyBefore(a, b) || KeyBefore(b, a)
    decreases |a|
  {
    if a != [] && b != [] {
      if a[0] == b[0] {
        assert a == [a[0]] + a[1..] && b == [b[0]] + b[1..];
        KeyBeforeConnected(a[1..], b[1..]);
      } else {
        BeforeConnected(a[0], b[0]);
      }
    }
  }

  /** No later element comes before an earlier one. */
  ghost predicate Sorted<T>(key: T -> seq<string>, s: seq<T>) {
    forall i, j :: 0 <= i < j < |s| ==> !KeyBefore(key(s[j]), key(s[i]))
  }

  /** Every element comes before all later ones: sorted and free of duplicate keys. */
  ghost predicate StrictlySorted<T>(key: T -> seq<string>, s: seq<T>) {
    forall i, j :: 0 <= i < j < |s| ==> KeyBefore(key(s[i]), key(s[j]))
  }

  /** Sorting without duplicate keys is strict. */
  lemma SortedDistinctIsStrict<T>(key: T -> seq<string>, s: seq<T>)
    requires Sorted(key, s)
    requires forall i, j :: 0 <= i < j < |s| ==> key(s[i]) != key(s[j])
    ensures StrictlySorted(key, s)
  {
    forall i, j | 0 <= i < j < |s| ensures KeyBefore(key(s[i]), key(s[j])) {
      KeyBeforeConnected(key(s[i]), key(s[j]));
    }
  }

  /** A strictly sorted sequence is determined by the set of its elements. */
  lemma {:induction false} StrictlySortedUnique<T>(key: T -> seq<string>, s: seq<T>, t: seq<T>)
    requires StrictlySorted(key, s) && StrictlySorted(key, t)
    requires forall x :: x in s <==> x in t
    ensures s == t
    decreases |s|
  {
    if s != [] { assert s[0] in t; }
    if t != [] { assert t[0] in s; }
    if s != [] {
      HeadsAgree(key, s, t);
      forall x ensures x in s[1..] <==> x in t[1..] {
        TailMembers(key, s, x);
        TailMembers(key, t, x);
      }
      StrictlySortedUnique(key, s[1..], t[1..]);
      assert s == [s[0]] + s[1..] && t == [t[0]] + t[1..];
    }
  }

  lemma HeadsAgree<T>(key: T -> seq<string>, s: seq<T>, t: seq<T>)
    requires StrictlySorted(key, s) && StrictlySorted(key, t)
    requires forall x :: x in s <==> x in t
    requires s != [] && t != []
    ensures s[0] == t[0]
  {
    assert s[0] in t && t[0] in s;
    var i :| 0 <= i < |t| && t[i] == s[0];
    var j :| 0 <= j < |s| && s[j] == t[0];
    if i != 0 && j != 0 {
      assert KeyBefore(key(t[0]), key(t[i])) && KeyBefore(key(s[0]), key(s[j]));
      KeyBeforeTransitive(key(t[0]), key(s[0]), key(t[0]));
      KeyBeforeIrreflexive(key(t[0]));
    }
  }

  lemma TailMembers<T>(key: T -> seq<string>, s: seq<T>, x: T)
    requires StrictlySorted(key, s) && s != []
    ensures x in s[1..] <==> x in s && x != s[0]
  {
    if x in s[1..] {
      var i :| 0 <= i < |s[1..]| && s[1..][i] == x;
      assert s[i + 1] == x;
      KeyBeforeIrreflexive(key(x));
    }
    if x in s && x != s[0] {
      var i :| 0 <= i < |s| && s[i] == x;
      assert s[1..][i - 1] == x;
    }
  }

  /** Insertion into a sorted sequence, after any equal keys. */
  function Insert<T>(key: T -> seq<string>, x: T, s: seq<T>): (r: seq<T>)
    ensures |r| == |s| + 1
    ensures multiset(r) == multiset(s) + multiset{x}
  {
    if s == [] || KeyBefore(key(x), key(s[0])) then
      [x] + s
    else
      assert s == [s[0]] + s[1..];
      [s[0]] + Insert(key, x, s[1..])
  }

  lemma {:induction false} InsertSorted<T>(key: T -> seq<string>, x: T, s: seq<T>)
    requires Sorted(key, s)
    ensures Sorted(key, Insert(key, x, s))
    decreases |s|
  {
    var r := Insert(key, x, s);
    if s == [] {
    } else if KeyBefore(key(x), key(s[0])) {
      forall i, j | 0 <= i < j < |r| ensures !KeyBefore(key(r[j]), key(r[i])) {
        if i == 0 && KeyBefore(key(r[j]), key(x)) {
          assert r[j] == s[j - 1];
          KeyBeforeIrreflexive(key(s[0]));
          KeyBeforeTransitive(key(r[j]), key(x), key(s[0]));
        }
      }
    } else {
      var tail := Insert(key, x, s[1..]);
      InsertSorted(key, x, s[1..]);
      forall i, j | 0 <= i < j < |r| ensures !KeyBefore(key(r[j]), key(r[i])) {
        if i == 0 {
          assert tail[j - 1] in multiset(tail);
          assert tail[j - 1] == x || tail[j - 1] in multiset(s[1..]);
          if tail[j - 1] != x {
            var k :| 0 <= k < |s[1..]| && s[1..][k] == tail[j - 1];
            assert s[k + 1] == tail[j - 1];
          }
        }
      }
    }
  }

  /** Stands for the library sorts (sort.Strings, sort.Slice, slices.SortFunc). */
  method SortByKey<T>(key: T -> seq<string>, s: seq<T>) returns (r: seq<T>)
    ensures Sorted(key, r)
    ensures multiset(r) == multiset(s)
  {
    r := [];
    var i := 0;
    while i < |s|
      invariant 0 <= i <= |s|
      invariant Sorted(key, r)
      invariant multiset(r) == multiset(s[..i])
    {
      InsertSorted(key, s[i], r);
      r := Insert(key, s[i], r);
      assert s[..i + 1] == s[..i] + [s[i]];
      i := i + 1;
    }
    assert s[..i] == s;
  }

  /** A permutation has the same members and keeps distinct keys distinct. */
  lemma PermutationMembers<T>(s: seq<T>, r: seq<T>)
    requires multiset(s) == multiset(r)
    ensures forall x :: x in s <==> x in r
    ensures |s| == |r|
  {
    forall x ensures x in s <==> x in r {
      assert x in multiset(s) <==> x in multiset(r);
    }
    assert |multiset(s)| == |multiset(r)|;
  }

  ghost predicate DistinctKeys<T>(key: T -> seq<string>, s: seq<T>) {
    forall i, j | 0 <= i < j < |s| :: key(s[i]) != key(s[j])
  }

  lemma TwiceCounts<T>(s: seq<T>, i: nat, j: nat)
    requires i < j < |s| && s[i] == s[j]
    ensures multiset(s)[s[i]] >= 2
  {
    assert s == s[..i] + [s[i]] + s[i + 1..j] + [s[j]] + s[j + 1..];
  }

  lemma OnceCounts<T>(key: T -> seq<string>, s: seq<T>, a: nat)
    requires a < |s| && DistinctKeys(key, s)
    ensures multiset(s)[s[a]] == 1
  {
    assert s == s[..a] + [s[a]] + s[a + 1..];
    assert s[a] !in s[..a] && s[a] !in s[a + 1..];
  }

  lemma PermutationKeepsDistinct<T>(key: T -> seq<string>, s: seq<T>, r: seq<T>)
    requires multiset(s) == multiset(r) && DistinctKeys(key, s)
    ensures DistinctKeys(key, r)
  {
    forall i, j | 0 <= i < j < |r| ensures key(r[i]) != key(r[j]) {
      if key(r[i]) == key(r[j]) {
        PermutationMembers(s, r);
        assert r[i] in s && r[j] in s;
        var a :| 0 <= a < |s| && s[a] == r[i];
        var b :| 0 <= b < |s| && s[b] == r[j];
        if a == b {
          TwiceCounts(r, i, j);
          OnceCounts(key, s, a);
        }
      }
    }
  }

  /** The elements of a set in order: the iteration over a map that ends in a sort. */
  method SortedMembers<T(==)>(key: T -> seq<string>, members: set<T>) returns (r: seq<T>)
    requires forall x, y | x in members && y in members && key(x) == key(y) :: x == y
    ensures StrictlySorted(key, r) && forall x :: x in r <==> x in members
  {
    var list: seq<T> := [];
    var todo := members;
    while todo != {}
      invariant forall x :: x in members <==> x in todo || x in list
      invariant forall x | x in list :: x !in todo
      invariant DistinctKeys(key, list)
      decreases |todo|
    {
      var x :| x in todo;
      list := list + [x];
      todo := todo - {x};
    }
    r := SortByKey(key, list);
    PermutationMembers(list, r);
    PermutationKeepsDistinct(key, list, r);
    SortedDistinctIsStrict(key, r);
  }
}
