/** Counting by key: what a map of counters holds after a pass over a list, and what the counters sum to. */
module Tally {

  import opened Options

  function Sum(xs: seq<nat>): nat {
    if xs == [] then 0 else Sum(xs[..|xs| - 1]) + xs[|xs| - 1]
  }

  lemma {:induction false} SumOneMore(xs: seq<nat>, ys: seq<nat>, k: nat, c: nat)
    requires |xs| == |ys| && k < |xs| && ys[k] == xs[k] + c && forall i | 0 <= i < |xs| && i != k :: ys[i] == xs[i]
    ensures Sum(ys) == Sum(xs) + c
  {
    var n := |xs| - 1;
    if k == n {
      assert ys[..n] == xs[..n];
    } else {
      SumOneMore(xs[..n], ys[..n], k, c);
    }
  }

  lemma {:induction false} SumZero(xs: seq<nat>)
    requires forall i | 0 <= i < |xs| :: xs[i] == 0
    ensures Sum(xs) == 0
  {
    if xs != [] { SumZero(xs[..|xs| - 1]); }
  }

  lemma {:induction false} SumAppend(xs: seq<nat>, ys: seq<nat>)
    ensures Sum(xs + ys) == Sum(xs) + Sum(ys)
    decreases |ys|
  {
    if ys == [] {
      assert xs + ys == xs;
    } else {
      var n := |ys| - 1;
      assert (xs + ys)[..|xs| + n] == xs + ys[..n];
      SumAppend(xs, ys[..n]);
    }
  }

  /** How many elements have key k. */
  function CountOf<T, K(==)>(f: T -> Option<K>, xs: seq<T>, k: K): nat {
    if xs == [] then 0 else CountOf(f, xs[..|xs| - 1], k) + if f(xs[|xs| - 1]) == Some(k) then 1 else 0
  }

  /** How many elements have a key. */
  function CountSome<T, K>(f: T -> Option<K>, xs: seq<T>): nat {
    if xs == [] then 0 else CountSome(f, xs[..|xs| - 1]) + if f(xs[|xs| - 1]).Some? then 1 else 0
  }

  lemma CountAppend<T, K>(f: T -> Option<K>, xs: seq<T>, x: T, k: K)
    ensures CountOf(f, xs + [x], k) == CountOf(f, xs, k) + if f(x) == Some(k) then 1 else 0
    ensures CountSome(f, xs + [x]) == CountSome(f, xs) + if f(x).Some? then 1 else 0
  {
    assert (xs + [x])[..|xs|] == xs;
  }

  lemma {:induction false} CountedOccurs<T, K>(f: T -> Option<K>, xs: seq<T>, k: K)
    ensures CountOf(f, xs, k) > 0 <==> exists x | x in xs :: f(x) == Some(k)
  {
    if xs != [] {
      var n := |xs| - 1;
      assert xs == xs[..n] + [xs[n]];
      CountedOccurs(f, xs[..n], k);
    }
  }

  function Get<K>(counts: map<K, nat>, k: K): nat {
    if k in counts then counts[k] else 0
  }

  /** The counters hold exactly the counts. */
  ghost predicate Tallied<T, K(!new)>(f: T -> Option<K>, xs: seq<T>, counts: map<K, nat>) {
    forall k :: Get(counts, k) == CountOf(f, xs, k) && (k in counts ==> counts[k] > 0)
  }

  function Bump<K>(counts: map<K, nat>, k: Option<K>): map<K, nat> {
    match k
    case None => counts
    case Some(key) => counts[key := Get(counts, key) + 1]
  }

  lemma BumpTallied<T, K(!new)>(f: T -> Option<K>, xs: seq<T>, x: T, counts: map<K, nat>)
    requires Tallied(f, xs, counts)
    ensures Tallied(f, xs + [x], Bump(counts, f(x)))
  {
    forall k ensures Get(Bump(counts, f(x)), k) == CountOf(f, xs + [x], k) { CountAppend(f, xs, x, k); }
  }

  /** One turn of a counting loop. */
  lemma TallyStep<T, K(!new)>(f: T -> Option<K>, xs: seq<T>, i: nat, counts: map<K, nat>, k: Option<K>)
    requires i < |xs| && Tallied(f, xs[..i], counts) && k == f(xs[i])
    ensures Tallied(f, xs[..i + 1], Bump(counts, k))
  {
    assert xs[..i + 1] == xs[..i] + [xs[i]];
    BumpTallied(f, xs[..i], xs[i], counts);
  }

  function Counts<T, K(==)>(f: T -> Option<K>, xs: seq<T>, keys: seq<K>): seq<nat> {
    seq(|keys|, i requires 0 <= i < |keys| => CountOf(f, xs, keys[i]))
  }

  /** Nothing is lost: the counts of all keys sum to the number of elements that have one. */
  lemma {:induction false} CountsSum<T, K>(f: T -> Option<K>, xs: seq<T>, keys: seq<K>)
    requires forall i, j | 0 <= i < j < |keys| :: keys[i] != keys[j]
    requires forall x | x in xs && f(x).Some? :: f(x).value in keys
    ensures Sum(Counts(f, xs, keys)) == CountSome(f, xs)
  {
    if xs == [] {
      SumZero(Counts(f, xs, keys));
    } else {
      var n := |xs| - 1;
      var x := xs[n];
      assert x in xs;
      CountsSum(f, xs[..n], keys);
      if f(x).None? {
        assert Counts(f, xs, keys) == Counts(f, xs[..n], keys);
      } else {
        var k :| 0 <= k < |keys| && keys[k] == f(x).value;
        SumOneMore(Counts(f, xs[..n], keys), Counts(f, xs, keys), k, 1);
      }
    }
  }

  lemma {:induction false} CountConcat<T, K>(f: T -> Option<K>, xs: seq<T>, ys: seq<T>, k: K)
    ensures CountOf(f, xs + ys, k) == CountOf(f, xs, k) + CountOf(f, ys, k)
    decreases |ys|
  {
    if ys == [] {
      assert xs + ys == xs;
    } else {
      var n := |ys| - 1;
      assert (xs + ys)[..|xs| + n] == xs + ys[..n];
      CountConcat(f, xs, ys[..n], k);
    }
  }

  lemma WithoutOne<T>(xs: seq<T>, i: nat)
    requires i < |xs|
    ensures multiset(xs[..i] + xs[i + 1..]) == multiset(xs) - multiset{xs[i]}
  {
    assert xs == xs[..i] + [xs[i]] + xs[i + 1..];
  }

  /** Counts do not depend on the order of the elements. */
  lemma {:induction false} CountPermuted<T, K>(f: T -> Option<K>, xs: seq<T>, ys: seq<T>, k: K)
    requires multiset(xs) == multiset(ys)
    ensures CountOf(f, xs, k) == CountOf(f, ys, k)
    decreases |xs|
  {
    if xs == [] {
      assert |multiset(ys)| == 0;
      assert ys == [];
    } else {
      var n := |xs| - 1;
      assert xs == xs[..n] + [xs[n]];
      assert xs[n] in multiset(ys);
      var j :| 0 <= j < |ys| && ys[j] == xs[n];
      assert ys == ys[..j] + [ys[j]] + ys[j + 1..];
      WithoutOne(xs, n);
      WithoutOne(ys, j);
      assert xs[..n] + xs[n + 1..] == xs[..n];
      CountPermuted(f, xs[..n], ys[..j] + ys[j + 1..], k);
      CountConcat(f, ys[..j] + [ys[j]], ys[j + 1..], k);
      CountConcat(f, ys[..j], ys[j + 1..], k);
      CountAppend(f, ys[..j], ys[j], k);
    }
  }
}
