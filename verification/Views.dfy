/** Nodes and edges of the aggregated views, their order and their edge counts (pkg/aggregator/aggregator.go). */
module Views {

  import opened Ordering
  import opened Tally

  datatype Edge = Edge(from: string, to: string, edgeType: string)

  datatype ViewEdge = ViewEdge(from: string, to: string, edgeType: string, count: nat)

  datatype Node = Node(id: string, aggregated: bool, caption: string, kind: string, namespace: string, name: string,
                       children: nat, edgesIn: nat, edgesOut: nat)

  /** Edges are ordered by source, then target, then type. */
  function EdgeKey(e: ViewEdge): seq<string> {
    [e.from, e.to, e.edgeType]
  }

  function IdKey(id: string): seq<string> {
    [id]
  }

  method SortedIds(ids: set<string>) returns (r: seq<string>)
    ensures StrictlySorted(IdKey, r) && forall x :: x in r <==> x in ids
  {
    forall x, y | x in ids && y in ids && IdKey(x) == IdKey(y) ensures x == y {
      assert IdKey(x)[0] == x && IdKey(y)[0] == y;
    }
    r := SortedMembers(IdKey, ids);
  }

  /** lessAEdge */
  predicate Less(a: ViewEdge, b: ViewEdge) {
    if a.from != b.from then Before(a.from, b.from)
    else if a.to != b.to then Before(a.to, b.to)
    else Before(a.edgeType, b.edgeType)
  }

  lemma LessIsKeyOrder(a: ViewEdge, b: ViewEdge)
    ensures Less(a, b) == KeyBefore(EdgeKey(a), EdgeKey(b))
  {
    var x, y := EdgeKey(a), EdgeKey(b);
    assert x[1..] == [a.to, a.edgeType] && y[1..] == [b.to, b.edgeType];
    assert x[1..][1..] == [a.edgeType] && y[1..][1..] == [b.edgeType];
    assert x[1..][1..][1..] == [] && y[1..][1..][1..] == [];
    assert KeyBefore([a.edgeType], [b.edgeType]) == (a.edgeType != b.edgeType && Before(a.edgeType, b.edgeType));
    if a.edgeType == b.edgeType { BeforeIrreflexive(a.edgeType); }
  }

  lemma InsertedSorted(base: seq<ViewEdge>, j: nat, x: ViewEdge)
    requires Sorted(EdgeKey, base) && j <= |base|
    requires forall k | j <= k < |base| :: KeyBefore(EdgeKey(x), EdgeKey(base[k]))
    requires j > 0 ==> !KeyBefore(EdgeKey(x), EdgeKey(base[j - 1]))
    ensures Sorted(EdgeKey, base[..j] + [x] + base[j..])
  {
    var r := base[..j] + [x] + base[j..];
    forall k | 0 <= k < j ensures !KeyBefore(EdgeKey(x), EdgeKey(base[k])) {
      if k < j - 1 { NotBeforeEarlier(base, x, k, j - 1); }
    }
    forall k | j <= k < |base| ensures !KeyBefore(EdgeKey(base[k]), EdgeKey(x)) { KeyBeforeAsymmetric(x, base[k]); }
    forall a, b | 0 <= a < b < |r| ensures !KeyBefore(EdgeKey(r[b]), EdgeKey(r[a])) {
      assert r[a] == if a < j then base[a] else if a == j then x else base[a - 1];
      assert r[b] == if b < j then base[b] else if b == j then x else base[b - 1];
    }
  }

  lemma KeyBeforeAsymmetric(x: ViewEdge, y: ViewEdge)
    requires KeyBefore(EdgeKey(x), EdgeKey(y))
    ensures !KeyBefore(EdgeKey(y), EdgeKey(x))
  {
    if KeyBefore(EdgeKey(y), EdgeKey(x)) {
      KeyBeforeTransitive(EdgeKey(x), EdgeKey(y), EdgeKey(x));
      KeyBeforeIrreflexive(EdgeKey(x));
    }
  }

  lemma NotBeforeEarlier(base: seq<ViewEdge>, x: ViewEdge, k: nat, l: nat)
    requires Sorted(EdgeKey, base) && k < l < |base| && !KeyBefore(EdgeKey(x), EdgeKey(base[l]))
    ensures !KeyBefore(EdgeKey(x), EdgeKey(base[k]))
  {
    if KeyBefore(EdgeKey(x), EdgeKey(base[k])) && EdgeKey(base[k]) != EdgeKey(base[l]) {
      KeyBeforeConnected(EdgeKey(base[k]), EdgeKey(base[l]));
      KeyBeforeTransitive(EdgeKey(x), EdgeKey(base[k]), EdgeKey(base[l]));
    }
  }

  lemma SwapShape(base: seq<ViewEdge>, x: ViewEdge, j: nat, rest: seq<ViewEdge>)
    requires 0 < j <= |base|
    ensures var s := base[..j] + [x] + base[j..] + rest;
            s[j - 1 := x][j := base[j - 1]] == base[..j - 1] + [x] + base[j - 1..] + rest
  {
  }

  lemma SunkMultiset(base: seq<ViewEdge>, x: ViewEdge, j: nat, rest: seq<ViewEdge>)
    requires j <= |base|
    ensures multiset(base[..j] + [x] + base[j..] + rest) == multiset(base + [x] + rest)
  {
    assert base == base[..j] + base[j..];
    assert multiset(base + [x] + rest) == multiset(base[..j]) + multiset(base[j..]) + multiset{x} + multiset(rest);
  }

  lemma SunkParts(s: seq<ViewEdge>, base: seq<ViewEdge>, x: ViewEdge, j: nat, rest: seq<ViewEdge>)
    requires j <= |base| && s == base[..j] + [x] + base[j..] + rest
    ensures s[..|base| + 1] == base[..j] + [x] + base[j..] && s[|base| + 1..] == rest
    ensures s[j] == x && (j > 0 ==> s[j - 1] == base[j - 1])
  {
  }

  ghost predicate Sunk(s: seq<ViewEdge>, base: seq<ViewEdge>, x: ViewEdge, j: nat, rest: seq<ViewEdge>) {
    && j <= |base| && s == base[..j] + [x] + base[j..] + rest
    && forall k | j <= k < |base| :: KeyBefore(EdgeKey(x), EdgeKey(base[k]))
  }

  lemma SunkOneMore(s: seq<ViewEdge>, base: seq<ViewEdge>, x: ViewEdge, j: nat, rest: seq<ViewEdge>)
    requires Sunk(s, base, x, j, rest) && j > 0 && Less(x, base[j - 1])
    ensures |s| > j && Sunk(s[j := s[j - 1]][j - 1 := s[j]], base, x, j - 1, rest)
  {
    SunkParts(s, base, x, j, rest);
    LessIsKeyOrder(x, base[j - 1]);
    SwapShape(base, x, j, rest);
    assert s[j := s[j - 1]][j - 1 := s[j]] == s[j - 1 := x][j := base[j - 1]];
  }

  /** The inner loop: moves element i down while it is less than its neighbour. */
  method Sink(es: array<ViewEdge>, i: nat) returns (j: nat)
    requires i < es.Length
    modifies es
    ensures Sunk(es[..], old(es[..i]), old(es[i]), j, old(es[i + 1..]))
    ensures j > 0 ==> !Less(old(es[i]), old(es[..i])[j - 1])
  {
    ghost var base, x, rest := es[..i], es[i], es[i + 1..];
    j := i;
    assert es[..] == base[..j] + [x] + base[j..] + rest;
    while j > 0 && Less(es[j], es[j - 1])
      invariant 0 <= j <= i
      invariant Sunk(es[..], base, x, j, rest)
    {
      ghost var before := es[..];
      SunkParts(before, base, x, j, rest);
      SunkOneMore(before, base, x, j, rest);
      es[j], es[j - 1] := es[j - 1], es[j];
      assert es[..] == before[j := before[j - 1]][j - 1 := before[j]];
      j := j - 1;
    }
    SunkParts(es[..], base, x, j, rest);
  }

  /** Brings element i to its place among the sorted elements before it. */
  method SinkDown(es: array<ViewEdge>, i: nat)
    requires i < es.Length && Sorted(EdgeKey, es[..i])
    modifies es
    ensures Sorted(EdgeKey, es[..i + 1]) && multiset(es[..]) == multiset(old(es[..]))
  {
    ghost var base, x, rest := es[..i], es[i], es[i + 1..];
    assert es[..] == base + [x] + rest;
    var j := Sink(es, i);
    SunkParts(es[..], base, x, j, rest);
    if j > 0 { LessIsKeyOrder(x, base[j - 1]); }
    InsertedSorted(base, j, x);
    SunkMultiset(base, x, j, rest);
    assert es[..i + 1] == es[..][..i + 1];
  }

  /** sortAEdges: insertion sort in place. */
  method SortViewEdges(es: array<ViewEdge>)
    modifies es
    ensures Sorted(EdgeKey, es[..]) && multiset(es[..]) == multiset(old(es[..]))
  {
    var i := 1;
    while i < es.Length
      invariant 1 <= i
      invariant i <= es.Length ==> Sorted(EdgeKey, es[..i])
      invariant i > es.Length ==> Sorted(EdgeKey, es[..])
      invariant multiset(es[..]) == multiset(old(es[..]))
    {
      SinkDown(es, i);
      i := i + 1;
    }
    assert es.Length >= 1 ==> es[..es.Length] == es[..];
  }

  function AsView(e: Edge): ViewEdge {
    ViewEdge(e.from, e.to, e.edgeType, 1)
  }

  /** The edges of `input`, each once and with count 1. */
  ghost predicate SameEdges(input: seq<Edge>, out: seq<ViewEdge>) {
    && (forall e | e in input :: AsView(e) in out)
    && (forall v | v in out :: v.count == 1 && Edge(v.from, v.to, v.edgeType) in input)
  }

  /** The deduplication loop of sortEdges. */
  method Dedupe(input: seq<Edge>) returns (out: seq<ViewEdge>)
    ensures SameEdges(input, out) && DistinctKeys(EdgeKey, out)
  {
    out := [];
    var seen: set<Edge> := {};
    var i := 0;
    while i < |input|
      invariant 0 <= i <= |input|
      invariant SameEdges(input[..i], out) && DistinctKeys(EdgeKey, out)
      invariant forall e :: e in seen <==> e in input[..i]
    {
      var e := input[i];
      if e !in seen {
        forall v | v in out ensures EdgeKey(v) != EdgeKey(AsView(e)) {
          assert Edge(v.from, v.to, v.edgeType) in seen;
          assert EdgeKey(v)[0] == v.from && EdgeKey(v)[1] == v.to && EdgeKey(v)[2] == v.edgeType;
        }
        seen := seen + {e};
        out := out + [AsView(e)];
      }
      assert input[..i + 1] == input[..i] + [e];
      i := i + 1;
    }
    assert input[..i] == input;
  }

  /** sortEdges: duplicate-free and strictly ordered, whatever the order and repetitions of the input. */
  method SortEdges(input: seq<Edge>) returns (out: seq<ViewEdge>)
    ensures StrictlySorted(EdgeKey, out) && SameEdges(input, out)
  {
    var deduped := Dedupe(input);
    var a := new ViewEdge[|deduped|](i requires 0 <= i < |deduped| => deduped[i]);
    assert a[..] == deduped;
    SortViewEdges(a);
    out := a[..];
    PermutationKeepsDistinct(EdgeKey, deduped, out);
    PermutationMembers(deduped, out);
    SortedDistinctIsStrict(EdgeKey, out);
  }

  /** The result of SortEdges is a function of the set of edges: order and repetition do not matter. */
  lemma SortedEdgesUnique(input: seq<Edge>, other: seq<Edge>, out: seq<ViewEdge>, out2: seq<ViewEdge>)
    requires forall e :: e in input <==> e in other
    requires StrictlySorted(EdgeKey, out) && SameEdges(input, out) && StrictlySorted(EdgeKey, out2)
               && SameEdges(other, out2)
    ensures out == out2
  {
    forall v ensures v in out <==> v in out2 {
      var e := Edge(v.from, v.to, v.edgeType);
      assert v.count == 1 ==> AsView(e) == v;
      if v in out { assert e in other && AsView(e) in out2; }
      if v in out2 { assert e in input && AsView(e) in out; }
    }
    StrictlySortedUnique(EdgeKey, out, out2);
  }

  // ---------------------------------------------------------------------------------
  // Edge counts

  function CountTo(es: seq<ViewEdge>, id: string): nat {
    if es == [] then 0 else CountTo(es[..|es| - 1], id) + if es[|es| - 1].to == id then es[|es| - 1].count else 0
  }

  function CountFrom(es: seq<ViewEdge>, id: string): nat {
    if es == [] then 0 else CountFrom(es[..|es| - 1], id) + if es[|es| - 1].from == id then es[|es| - 1].count else 0
  }

  /** The position that annotateEdgeCounts uses for an id: the last node that carries it. */
  ghost predicate Indexed(nodes: seq<Node>, idx: map<string, nat>) {
    && (forall i | 0 <= i < |nodes| :: nodes[i].id in idx)
    && (forall id | id in idx ::
         idx[id] < |nodes| && nodes[idx[id]].id == id && forall j | idx[id] < j < |nodes| :: nodes[j].id != id)
  }

  method IndexNodes(nodes: seq<Node>) returns (idx: map<string, nat>)
    ensures Indexed(nodes, idx)
  {
    idx := map[];
    var i := 0;
    while i < |nodes|
      invariant 0 <= i <= |nodes|
      invariant Indexed(nodes[..i], idx)
    {
      assert nodes[..i + 1] == nodes[..i] + [nodes[i]];
      idx := idx[nodes[i].id := i];
      i := i + 1;
    }
    assert nodes[..i] == nodes;
  }

  /** Node i with the counts of the edges that point to and from it, if it is the node its id is looked up as. */
  function Annotated(n: Node, counted: bool, es: seq<ViewEdge>): Node {
    if counted then n.(edgesIn := n.edgesIn + CountTo(es, n.id), edgesOut := n.edgesOut + CountFrom(es, n.id)) else n
  }

  ghost predicate AllAnnotated(nodes: seq<Node>, idx: map<string, nat>, es: seq<ViewEdge>, out: seq<Node>)
    requires Indexed(nodes, idx)
  {
    |out| == |nodes| && forall i | 0 <= i < |nodes| :: out[i] == Annotated(nodes[i], idx[nodes[i].id] == i, es)
  }

  function Bumped(n: Node, e: ViewEdge): Node {
    n.(edgesOut := n.edgesOut + (if e.from == n.id then e.count else 0),
       edgesIn := n.edgesIn + if e.to == n.id then e.count else 0)
  }

  lemma OneMoreEdge(n: Node, counted: bool, es: seq<ViewEdge>, e: ViewEdge)
    ensures Annotated(n, counted, es + [e])
            == if counted then Bumped(Annotated(n, counted, es), e) else Annotated(n, counted, es)
  {
    assert (es + [e])[..|es|] == es;
  }

  lemma BumpedAnnotated(start: seq<Node>, idx: map<string, nat>, es: seq<ViewEdge>, e: ViewEdge, nodes: seq<Node>,
                        out: seq<Node>)
    requires Indexed(start, idx) && AllAnnotated(start, idx, es, nodes)
    requires |out| == |nodes| && forall i | 0 <= i < |nodes| ::
               out[i] == if idx[start[i].id] == i then Bumped(nodes[i], e) else nodes[i]
    ensures AllAnnotated(start, idx, es + [e], out)
  {
    forall i | 0 <= i < |start| ensures out[i] == Annotated(start[i], idx[start[i].id] == i, es + [e]) {
      OneMoreEdge(start[i], idx[start[i].id] == i, es, e);
    }
  }

  // ---------------------------------------------------------------------------------
  // Totals

  function TotalCount(es: seq<ViewEdge>): nat {
    if es == [] then 0 else TotalCount(es[..|es| - 1]) + es[|es| - 1].count
  }

  function In(n: Node, counted: bool, es: seq<ViewEdge>): nat {
    if counted then CountTo(es, n.id) else 0
  }

  function Out(n: Node, counted: bool, es: seq<ViewEdge>): nat {
    if counted then CountFrom(es, n.id) else 0
  }

  function Ins(nodes: seq<Node>, idx: map<string, nat>, es: seq<ViewEdge>): seq<nat>
    requires forall i | 0 <= i < |nodes| :: nodes[i].id in idx
  {
    seq(|nodes|, i requires 0 <= i < |nodes| => In(nodes[i], idx[nodes[i].id] == i, es))
  }

  function Outs(nodes: seq<Node>, idx: map<string, nat>, es: seq<ViewEdge>): seq<nat>
    requires forall i | 0 <= i < |nodes| :: nodes[i].id in idx
  {
    seq(|nodes|, i requires 0 <= i < |nodes| => Out(nodes[i], idx[nodes[i].id] == i, es))
  }

  /** Every edge is counted once on the way in. */
  lemma {:induction false} InsSumToTotal(nodes: seq<Node>, idx: map<string, nat>, es: seq<ViewEdge>)
    requires Indexed(nodes, idx) && forall e | e in es :: e.to in idx
    ensures Sum(Ins(nodes, idx, es)) == TotalCount(es)
  {
    if es == [] {
      SumZero(Ins(nodes, idx, es));
    } else {
      var k := |es| - 1;
      var e := es[k];
      assert e in es;
      InsSumToTotal(nodes, idx, es[..k]);
      SumOneMore(Ins(nodes, idx, es[..k]), Ins(nodes, idx, es), idx[e.to], e.count);
    }
  }

  /** Every edge is counted once on the way out. */
  lemma {:induction false} OutsSumToTotal(nodes: seq<Node>, idx: map<string, nat>, es: seq<ViewEdge>)
    requires Indexed(nodes, idx) && forall e | e in es :: e.from in idx
    ensures Sum(Outs(nodes, idx, es)) == TotalCount(es)
  {
    if es == [] {
      SumZero(Outs(nodes, idx, es));
    } else {
      var k := |es| - 1;
      var e := es[k];
      assert e in es;
      OutsSumToTotal(nodes, idx, es[..k]);
      SumOneMore(Outs(nodes, idx, es[..k]), Outs(nodes, idx, es), idx[e.from], e.count);
    }
  }

  function EdgesIn(nodes: seq<Node>): seq<nat> {
    seq(|nodes|, i requires 0 <= i < |nodes| => nodes[i].edgesIn)
  }

  function EdgesOut(nodes: seq<Node>): seq<nat> {
    seq(|nodes|, i requires 0 <= i < |nodes| => nodes[i].edgesOut)
  }

  lemma InIsTotal(start: seq<Node>, idx: map<string, nat>, es: seq<ViewEdge>, nodes: seq<Node>)
    requires Indexed(start, idx) && AllAnnotated(start, idx, es, nodes)
    requires forall i | 0 <= i < |start| :: start[i].edgesIn == 0
    requires forall e | e in es :: e.to in idx
    ensures Sum(EdgesIn(nodes)) == TotalCount(es)
  {
    InsSumToTotal(start, idx, es);
    assert EdgesIn(nodes) == Ins(start, idx, es);
  }

  lemma OutIsTotal(start: seq<Node>, idx: map<string, nat>, es: seq<ViewEdge>, nodes: seq<Node>)
    requires Indexed(start, idx) && AllAnnotated(start, idx, es, nodes)
    requires forall i | 0 <= i < |start| :: start[i].edgesOut == 0
    requires forall e | e in es :: e.from in idx
    ensures Sum(EdgesOut(nodes)) == TotalCount(es)
  {
    OutsSumToTotal(start, idx, es);
    assert EdgesOut(nodes) == Outs(start, idx, es);
  }

  /** On nodes that start uncounted, the in-counts and the out-counts both sum to the edges of the view. */
  lemma InIsOutIsTotal(start: seq<Node>, idx: map<string, nat>, es: seq<ViewEdge>, nodes: seq<Node>)
    requires Indexed(start, idx) && AllAnnotated(start, idx, es, nodes)
    requires forall i | 0 <= i < |start| :: start[i].edgesIn == 0 && start[i].edgesOut == 0
    requires forall e | e in es :: e.from in idx && e.to in idx
    ensures Sum(EdgesIn(nodes)) == TotalCount(es) == Sum(EdgesOut(nodes))
  {
    InIsTotal(start, idx, es, nodes);
    OutIsTotal(start, idx, es, nodes);
  }

  /** A view as the aggregators fill it. */
  class View {
    var nodes: seq<Node>
    var edges: seq<ViewEdge>

    constructor ()
      ensures nodes == [] && edges == []
    {
      nodes, edges := [], [];
    }

    method CountOut(i: nat, n: nat)
      requires i < |nodes|
      modifies this`nodes
      ensures nodes == old(nodes)[i := old(nodes)[i].(edgesOut := old(nodes)[i].edgesOut + n)]
    {
      nodes := nodes[i := nodes[i].(edgesOut := nodes[i].edgesOut + n)];
    }

    method CountIn(i: nat, n: nat)
      requires i < |nodes|
      modifies this`nodes
      ensures nodes == old(nodes)[i := old(nodes)[i].(edgesIn := old(nodes)[i].edgesIn + n)]
    {
      nodes := nodes[i := nodes[i].(edgesIn := nodes[i].edgesIn + n)];
    }

    /** The counting loop of annotateEdgeCounts for one edge. */
    method CountEdge(ghost start: seq<Node>, idx: map<string, nat>, ghost done: seq<ViewEdge>, e: ViewEdge)
      requires Indexed(start, idx) && AllAnnotated(start, idx, done, nodes)
      modifies this`nodes
      ensures AllAnnotated(start, idx, done + [e], nodes)
    {
      if e.from in idx { CountOut(idx[e.from], e.count); }
      if e.to in idx { CountIn(idx[e.to], e.count); }
      BumpedAnnotated(start, idx, done, e, old(nodes), nodes);
    }

    /** annotateEdgeCounts */
    method AnnotateEdgeCounts() returns (idx: map<string, nat>)
      modifies this`nodes
      ensures Indexed(old(nodes), idx) && AllAnnotated(old(nodes), idx, edges, nodes)
    {
      idx := IndexNodes(nodes);
      var i := 0;
      while i < |edges|
        invariant 0 <= i <= |edges|
        invariant AllAnnotated(old(nodes), idx, edges[..i], nodes)
      {
        CountEdge(old(nodes), idx, edges[..i], edges[i]);
        assert edges[..i + 1] == edges[..i] + [edges[i]];
        i := i + 1;
      }
      assert edges[..i] == edges;
    }
  }
}
