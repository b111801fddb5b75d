/** The view rooted at one workload: a breadth-first walk down the OWNS edges, then the references of what it found. */
module Workload {

  import opened Ordering
  import opened Views

  const OWNS := "OWNS"

  datatype Resource = Resource(id: string, kind: string, namespace: string, name: string)

  /** The graph store; it fails to list the edges into the ids of `brokenIn` and out of the ids of `brokenOut`. */
  datatype Graph = Graph(resources: map<string, Resource>, edges: seq<Edge>, brokenIn: set<string>,
                         brokenOut: set<string>)

  /** A store files each resource under its own id. */
  ghost predicate FiledById(g: Graph) {
    forall id | id in g.resources :: g.resources[id].id == id
  }

  function Incoming(es: seq<Edge>, id: string): (r: seq<Edge>)
    ensures forall e :: e in r <==> e in es && e.to == id
  {
    if es == [] then []
    else
      assert es == es[..|es| - 1] + [es[|es| - 1]];
      Incoming(es[..|es| - 1], id) + if es[|es| - 1].to == id then [es[|es| - 1]] else []
  }

  function Outgoing(es: seq<Edge>, id: string): (r: seq<Edge>)
    ensures forall e :: e in r <==> e in es && e.from == id
  {
    if es == [] then []
    else
      assert es == es[..|es| - 1] + [es[|es| - 1]];
      Outgoing(es[..|es| - 1], id) + if es[|es| - 1].from == id then [es[|es| - 1]] else []
  }

  // ---------------------------------------------------------------------------------
  // Ownership

  /** `root` is reached from `id` along n OWNS edges. */
  ghost predicate ReachesIn(es: seq<Edge>, id: string, root: string, n: nat)
    decreases n
  {
    if n == 0 then id == root
    else exists e | e in es :: e.edgeType == OWNS && e.from == id && ReachesIn(es, e.to, root, n - 1)
  }

  ghost predicate OwnedBy(es: seq<Edge>, id: string, root: string) {
    exists n: nat :: ReachesIn(es, id, root, n)
  }

  lemma OwnedStep(es: seq<Edge>, e: Edge, root: string)
    requires e in es && e.edgeType == OWNS && OwnedBy(es, e.to, root)
    ensures OwnedBy(es, e.from, root)
  {
    var n: nat :| ReachesIn(es, e.to, root, n);
    assert ReachesIn(es, e.from, root, n + 1);
  }

  /** A set closed under OWNS edges into it holds everything owned by its members. */
  lemma {:induction false} ClosureHoldsOwned(es: seq<Edge>, owned: set<string>, id: string, root: string, n: nat)
    requires root in owned && ReachesIn(es, id, root, n)
    requires forall e | e in es && e.edgeType == OWNS && e.to in owned :: e.from in owned
    ensures id in owned
    decreases n
  {
    if n > 0 {
      var e :| e in es && e.edgeType == OWNS && e.from == id && ReachesIn(es, e.to, root, n - 1);
      ClosureHoldsOwned(es, owned, e.to, root, n - 1);
    }
  }

  // ---------------------------------------------------------------------------------
  // The walk

  function Sources(es: seq<Edge>): set<string> {
    set e | e in es :: e.from
  }

  lemma OneFewer(all: set<string>, owned: set<string>, x: string)
    requires x in all && x !in owned
    ensures |all - (owned + {x})| == |all - owned| - 1
  {
    assert all - (owned + {x}) == (all - owned) - {x};
  }

  /** The inner loop: the owners' side of each OWNS edge is queued when it is new. */
  method Visit(incoming: seq<Edge>, ghost all: set<string>, owned0: set<string>, queue0: seq<string>)
    returns (owned: set<string>, queue: seq<string>, owns: seq<Edge>)
    requires forall e | e in incoming :: e.from in all
    ensures forall x :: x in owned <==> x in owned0 || exists e | e in incoming :: e.edgeType == OWNS && e.from == x
    ensures forall x :: x in queue <==> x in queue0 || (x in owned && x !in owned0)
    ensures forall e :: e in owns <==> e in incoming && e.edgeType == OWNS
    ensures |all - owned| + |queue| == |all - owned0| + |queue0|
  {
    owned, queue, owns := owned0, queue0, [];
    var i := 0;
    while i < |incoming|
      invariant 0 <= i <= |incoming|
      invariant forall x :: x in owned <==>
                  x in owned0 || exists e | e in incoming[..i] :: e.edgeType == OWNS && e.from == x
      invariant forall x :: x in queue <==> x in queue0 || (x in owned && x !in owned0)
      invariant forall e :: e in owns <==> e in incoming[..i] && e.edgeType == OWNS
      invariant |all - owned| + |queue| == |all - owned0| + |queue0|
    {
      var e := incoming[i];
      assert incoming[..i + 1] == incoming[..i] + [e];
      if e.edgeType == OWNS {
        owns := owns + [e];
        if e.from !in owned {
          OneFewer(all, owned, e.from);
          owned := owned + {e.from};
          queue := queue + [e.from];
        }
      }
      i := i + 1;
    }
    assert incoming[..i] == incoming;
  }

  /** The state of the walk between two visits; `done` are the ids already taken from the queue. */
  ghost predicate Walking(es: seq<Edge>, root: string, owned: set<string>, queue: seq<string>, done: set<string>) {
    && root in owned
    && (forall x | x in queue :: x in owned)
    && (forall x | x in owned :: x in done || x in queue)
    && (forall x | x in done :: x in owned)
    && (forall e | e in es && e.edgeType == OWNS && e.to in done :: e.from in owned)
  }

  ghost predicate Genuine(es: seq<Edge>, root: string, owned: set<string>) {
    forall x | x in owned :: OwnedBy(es, x, root)
  }

  ghost predicate Collected(es: seq<Edge>, done: set<string>, owns: seq<Edge>) {
    forall e :: e in owns <==> e in es && e.edgeType == OWNS && e.to in done
  }

  lemma VisitKeepsWalking(es: seq<Edge>, root: string, owned0: set<string>, queue0: seq<string>, done: set<string>,
                          cur: string, owned: set<string>, queue: seq<string>)
    requires Walking(es, root, owned0, [cur] + queue0, done)
    requires forall x :: x in owned <==>
               x in owned0 || exists e | e in Incoming(es, cur) :: e.edgeType == OWNS && e.from == x
    requires forall x :: x in queue <==> x in queue0 || (x in owned && x !in owned0)
    ensures Walking(es, root, owned, queue, done + {cur})
  {
    forall x | x in owned ensures x in done + {cur} || x in queue {
      if x in owned0 { assert x in done || x in [cur] + queue0; }
    }
    assert cur in [cur] + queue0;
    forall x | x in queue ensures x in owned {
      if x in queue0 { assert x in [cur] + queue0; }
    }
    forall e | e in es && e.edgeType == OWNS && e.to in done + {cur} ensures e.from in owned {
      if e.to !in done { assert e in Incoming(es, cur); }
    }
  }

  lemma VisitKeepsGenuine(es: seq<Edge>, root: string, owned0: set<string>, cur: string, owned: set<string>)
    requires Genuine(es, root, owned0) && cur in owned0
    requires forall x :: x in owned <==>
               x in owned0 || exists e | e in Incoming(es, cur) :: e.edgeType == OWNS && e.from == x
    ensures Genuine(es, root, owned)
  {
    forall x | x in owned ensures OwnedBy(es, x, root) {
      if x !in owned0 {
        var e :| e in Incoming(es, cur) && e.edgeType == OWNS && e.from == x;
        OwnedStep(es, e, root);
      }
    }
  }

  lemma WalkEnds(es: seq<Edge>, root: string, owned: set<string>, done: set<string>)
    requires Walking(es, root, owned, [], done) && Genuine(es, root, owned)
    ensures done == owned && forall x :: x in owned <==> OwnedBy(es, x, root)
  {
    forall x | x in owned ensures x in done { assert x !in []; }
    forall x | OwnedBy(es, x, root) ensures x in owned {
      var n: nat :| ReachesIn(es, x, root, n);
      ClosureHoldsOwned(es, owned, x, root, n);
    }
  }

  /** Phase 1. It ends on every finite graph, cyclic ones too, since an id is queued at most once. */
  method WalkOwned(g: Graph, root: string) returns (ok: bool, owned: set<string>, owns: seq<Edge>)
    ensures ok ==> forall x :: x in owned <==> OwnedBy(g.edges, x, root)
    ensures ok ==> Collected(g.edges, owned, owns)
    ensures ok <==> forall x | OwnedBy(g.edges, x, root) :: x !in g.brokenIn
  {
    ghost var all := {root} + Sources(g.edges);
    ghost var done: set<string> := {};
    owned, owns := {root}, [];
    var queue := [root];
    assert ReachesIn(g.edges, root, root, 0);
    while queue != []
      invariant Walking(g.edges, root, owned, queue, done) && Genuine(g.edges, root, owned)
      invariant Collected(g.edges, done, owns)
      invariant forall x | x in done :: x !in g.brokenIn
      decreases |all - owned| + |queue|
    {
      var cur := queue[0];
      var rest := queue[1..];
      assert queue == [cur] + rest;
      assert cur in queue;
      if cur in g.brokenIn { return false, owned, owns; }
      var incoming := Incoming(g.edges, cur);
      var more;
      ghost var owned0 := owned;
      owned, queue, more := Visit(incoming, all, owned, rest);
      VisitKeepsWalking(g.edges, root, owned0, rest, done, cur, owned, queue);
      VisitKeepsGenuine(g.edges, root, owned0, cur, owned);
      CollectMore(g.edges, done, cur, owns, more);
      owns := owns + more;
      done := done + {cur};
    }
    WalkEnds(g.edges, root, owned, done);
    ok := true;
  }

  lemma CollectMore(es: seq<Edge>, done: set<string>, cur: string, owns: seq<Edge>, more: seq<Edge>)
    requires Collected(es, done, owns) && forall e :: e in more <==> e in Incoming(es, cur) && e.edgeType == OWNS
    ensures Collected(es, done + {cur}, owns + more)
  {
  }

  // ---------------------------------------------------------------------------------
  // References

  ghost predicate References(es: seq<Edge>, owned: set<string>, refs: seq<Edge>) {
    forall e :: e in refs <==> e in es && e.edgeType != OWNS && e.from in owned
  }

  method OutgoingReferences(out: seq<Edge>, included0: set<string>) returns (refs: seq<Edge>, included: set<string>)
    ensures forall e :: e in refs <==> e in out && e.edgeType != OWNS
    ensures forall x :: x in included <==> x in included0 || exists e | e in out :: e.edgeType != OWNS && e.to == x
  {
    refs, included := [], included0;
    var i := 0;
    while i < |out|
      invariant 0 <= i <= |out|
      invariant forall e :: e in refs <==> e in out[..i] && e.edgeType != OWNS
      invariant forall x :: x in included <==>
                  x in included0 || exists e | e in out[..i] :: e.edgeType != OWNS && e.to == x
    {
      assert out[..i + 1] == out[..i] + [out[i]];
      if out[i].edgeType != OWNS {
        refs := refs + [out[i]];
        included := included + {out[i].to};
      }
      i := i + 1;
    }
    assert out[..i] == out;
  }

  /** What the view shows: the owned ids and the targets of their other edges. */
  ghost predicate Shown(es: seq<Edge>, owned: set<string>, x: string) {
    x in owned || exists e | e in es :: e.edgeType != OWNS && e.from in owned && e.to == x
  }

  /** Phase 2. The ids are visited in the unspecified order of a map. */
  method CollectReferences(g: Graph, owned: set<string>) returns (ok: bool, refs: seq<Edge>, included: set<string>)
    ensures ok <==> owned !! g.brokenOut
    ensures ok ==> References(g.edges, owned, refs)
    ensures ok ==> forall x :: x in included <==> Shown(g.edges, owned, x)
  {
    refs, included := [], owned;
    var todo := owned;
    ghost var done: set<string> := {};
    while todo != {}
      invariant forall x :: x in owned <==> x in todo || x in done
      invariant References(g.edges, done, refs)
      invariant forall x :: x in included <==>
                  x in owned || exists e | e in g.edges :: e.edgeType != OWNS && e.from in done && e.to == x
      invariant done !! g.brokenOut
      decreases |todo|
    {
      var id :| id in todo;
      todo := todo - {id};
      if id in g.brokenOut { return false, refs, included; }
      var more;
      ghost var before := included;
      more, included := OutgoingReferences(Outgoing(g.edges, id), included);
      IncludeMore(g.edges, owned, done, id, before, included);
      refs := refs + more;
      done := done + {id};
    }
    assert done == owned;
    ok := true;
  }

  lemma IncludeMore(es: seq<Edge>, owned: set<string>, done: set<string>, id: string, before: set<string>,
                    after: set<string>)
    requires forall x :: x in before <==>
               x in owned || exists e | e in es :: e.edgeType != OWNS && e.from in done && e.to == x
    requires forall x :: x in after <==>
               x in before || exists e | e in Outgoing(es, id) :: e.edgeType != OWNS && e.to == x
    ensures forall x :: x in after <==>
              x in owned || exists e | e in es :: e.edgeType != OWNS && e.from in done + {id} && e.to == x
  {
    forall x ensures x in after <==>
        x in owned || exists e | e in es :: e.edgeType != OWNS && e.from in done + {id} && e.to == x {
      if e :| e in es && e.edgeType != OWNS && e.from in done + {id} && e.to == x {
        if e.from !in done { assert e in Outgoing(es, id); }
      }
    }
  }

  // ---------------------------------------------------------------------------------
  // The view

  function NodeOf(g: Graph, id: string): Node {
    if id in g.resources
    then var r := g.resources[id]; Node(r.id, false, "", r.kind, r.namespace, r.name, 0, 0, 0)
    else Node(id, false, "(missing) " + id, "", "", "", 0, 0, 0)
  }

  method Materialise(g: Graph, ids: seq<string>) returns (nodes: seq<Node>)
    ensures |nodes| == |ids| && forall i | 0 <= i < |ids| :: nodes[i] == NodeOf(g, ids[i])
  {
    nodes := [];
    for i := 0 to |ids|
      invariant |nodes| == i && forall j | 0 <= j < i :: nodes[j] == NodeOf(g, ids[j])
    {
      nodes := nodes + [NodeOf(g, ids[i])];
    }
  }

  datatype Outcome = BadScope | NotFound | StoreError | Built

  /** The edges of the view, in the terms of the graph. */
  ghost predicate ViewEdges(es: seq<Edge>, root: string, out: seq<ViewEdge>) {
    && StrictlySorted(EdgeKey, out)
    && (forall v | v in out :: v.count == 1)
    && (forall from, to, t :: ViewEdge(from, to, t, 1) in out <==>
                              Edge(from, to, t) in es
                                  && (if t == OWNS then OwnedBy(es, to, root) else OwnedBy(es, from, root)))
  }

  ghost predicate InView(es: seq<Edge>, root: string, x: string) {
    OwnedBy(es, x, root) || exists e | e in es :: e.edgeType != OWNS && OwnedBy(es, e.from, root) && e.to == x
  }

  /** The nodes of the view: one per id in it, in order, with the counts of the view's edges. */
  ghost predicate ViewNodes(g: Graph, root: string, nodes: seq<Node>, edges: seq<ViewEdge>) {
    && StrictlySorted((n: Node) => IdKey(n.id), nodes)
    && (forall x :: InView(g.edges, root, x) <==> exists n | n in nodes :: n.id == x)
    && (forall n | n in nodes :: n == NodeOf(g, n.id).(edgesIn := CountTo(edges, n.id),
       edgesOut := CountFrom(edges, n.id)))
  }

  /** Aggregate of the workload level. */
  method Aggregate(g: Graph, namespace: string, kind: string, name: string) returns (r: Outcome, view: View)
    requires FiledById(g)
    ensures fresh(view)
    ensures r == BadScope <==> namespace == "" || kind == "" || name == ""
    ensures r == NotFound <==> r != BadScope && RootId(namespace, kind, name) !in g.resources
    ensures r == Built || r == StoreError ==>
              (r == Built <==> forall x | OwnedBy(g.edges, x, RootId(namespace, kind, name)) ::
                  x !in g.brokenIn && x !in g.brokenOut)
    ensures r == Built ==> ViewEdges(g.edges, RootId(namespace, kind, name), view.edges)
    ensures r == Built ==> ViewNodes(g, RootId(namespace, kind, name), view.nodes, view.edges)
  {
    view := new View();
    if namespace == "" || kind == "" || name == "" { return BadScope, view; }
    var root := RootId(namespace, kind, name);
    if root !in g.resources { return NotFound, view; }
    var ok, owned, owns := WalkOwned(g, root);
    if !ok { return StoreError, view; }
    var refs, included;
    ok, refs, included := CollectReferences(g, owned);
    if !ok { return StoreError, view; }
    var ids := SortedIds(included);
    view.nodes := Materialise(g, ids);
    view.edges := SortEdges(owns + refs);
    EdgesOfView(g.edges, root, owned, owns, refs, view.edges);
    ghost var bare := view.nodes;
    ghost var idx := view.AnnotateEdgeCounts();
    NodesOfView(g, root, owned, included, ids, bare, idx, view.edges, view.nodes);
    r := Built;
  }

  function RootId(namespace: string, kind: string, name: string): string {
    namespace + "/" + kind + "/" + name
  }

  lemma EdgesOfView(es: seq<Edge>, root: string, owned: set<string>, owns: seq<Edge>, refs: seq<Edge>,
                    out: seq<ViewEdge>)
    requires forall x :: x in owned <==> OwnedBy(es, x, root)
    requires Collected(es, owned, owns) && References(es, owned, refs)
    requires StrictlySorted(EdgeKey, out) && SameEdges(owns + refs, out)
    ensures ViewEdges(es, root, out)
  {
    forall from, to, t
      ensures ViewEdge(from, to, t, 1) in out <==>
              Edge(from, to, t) in es && (if t == OWNS then OwnedBy(es, to, root) else OwnedBy(es, from, root))
    {
      var e := Edge(from, to, t);
      assert AsView(e) == ViewEdge(from, to, t, 1);
      assert e in owns + refs <==> e in owns || e in refs;
    }
  }

  lemma StrictIdsDistinct(ids: seq<string>, i: nat, j: nat)
    requires StrictlySorted(IdKey, ids) && i < j < |ids|
    ensures ids[i] != ids[j]
  {
    KeyBeforeIrreflexive(IdKey(ids[i]));
  }

  lemma OnlyIndex(g: Graph, ids: seq<string>, bare: seq<Node>, idx: map<string, nat>, i: nat)
    requires FiledById(g) && StrictlySorted(IdKey, ids) && i < |ids|
    requires |bare| == |ids| && forall k | 0 <= k < |ids| :: bare[k] == NodeOf(g, ids[k])
    requires Indexed(bare, idx)
    ensures bare[i].id == ids[i] && idx[bare[i].id] == i
  {
    var k := idx[bare[i].id];
    assert bare[k].id == ids[k] && bare[i].id == ids[i];
    if i < k { StrictIdsDistinct(ids, i, k); }
  }

  lemma NodesOfView(g: Graph, root: string, owned: set<string>, included: set<string>, ids: seq<string>,
                    bare: seq<Node>, idx: map<string, nat>, edges: seq<ViewEdge>, nodes: seq<Node>)
    requires FiledById(g) && forall x :: x in owned <==> OwnedBy(g.edges, x, root)
    requires forall x :: x in included <==> Shown(g.edges, owned, x)
    requires StrictlySorted(IdKey, ids) && forall x :: x in ids <==> x in included
    requires |bare| == |ids| && forall k | 0 <= k < |ids| :: bare[k] == NodeOf(g, ids[k])
    requires Indexed(bare, idx) && AllAnnotated(bare, idx, edges, nodes)
    ensures ViewNodes(g, root, nodes, edges)
  {
    forall i | 0 <= i < |ids|
      ensures nodes[i] == NodeOf(g, ids[i]).(edgesIn := CountTo(edges, ids[i]), edgesOut := CountFrom(edges, ids[i]))
                && nodes[i].id == ids[i]
    {
      OnlyIndex(g, ids, bare, idx, i);
    }
    forall x ensures InView(g.edges, root, x) <==> exists n | n in nodes :: n.id == x {
      assert InView(g.edges, root, x) <==> Shown(g.edges, owned, x);
      if x in ids {
        var i :| 0 <= i < |ids| && ids[i] == x;
        assert nodes[i] in nodes;
      }
    }
  }

  /** Both ends of every edge of the view are nodes of the view. */
  lemma EndpointsAreNodes(g: Graph, root: string, nodes: seq<Node>, edges: seq<ViewEdge>, v: ViewEdge)
    requires ViewEdges(g.edges, root, edges) && ViewNodes(g, root, nodes, edges) && v in edges
    ensures (exists n | n in nodes :: n.id == v.from) && exists n | n in nodes :: n.id == v.to
  {
    var e := Edge(v.from, v.to, v.edgeType);
    assert v == ViewEdge(v.from, v.to, v.edgeType, 1);
    assert e in g.edges;
    if v.edgeType == OWNS { OwnedStep(g.edges, e, root); }
    assert InView(g.edges, root, v.from) && InView(g.edges, root, v.to);
  }

  /** A node shows the identity of its stored resource, or that there is none; it stands for itself alone. */
  lemma NodesShowTheirResources(g: Graph, root: string, nodes: seq<Node>, edges: seq<ViewEdge>, n: Node)
    requires FiledById(g) && ViewNodes(g, root, nodes, edges) && n in nodes
    ensures !n.aggregated && n.children == 0
    ensures n.id in g.resources ==>
              var r := g.resources[n.id];
              n.id == r.id && n.kind == r.kind && n.namespace == r.namespace && n.name == r.name && n.caption == ""
    ensures n.id !in g.resources ==> n.caption == "(missing) " + n.id && n.kind == n.namespace == n.name == ""
  {
  }
}
