/** The namespace view: workloads absorb what they own, and edges are rewritten to the nodes that remain. */
module NamespaceView {

  import opened Options
  import opened Ordering
  import opened Tally
  import opened Views

  /** `id` is the resource's graph id, which always holds two slashes. */
  datatype Resource = Resource(id: string, kind: string, namespace: string, name: string, uid: string,
                               owners: seq<string>)

  predicate WorkloadKind(kind: string) {
    kind in {"Deployment", "StatefulSet", "DaemonSet", "Job", "CronJob", "Service", "Ingress", "HTTPRoute"}
  }

  predicate PassthroughKind(kind: string) {
    kind in {"ConfigMap", "Secret", "ServiceAccount", "PersistentVolumeClaim", "Gateway", "HorizontalPodAutoscaler"}
  }

  predicate AbsorbedKind(kind: string) {
    kind in {"Pod", "ReplicaSet"}
  }

  /** A store returns one entry per resource, each with its id. */
  ghost predicate OneEntryPerId(rs: seq<Resource>) {
    (forall i, j | 0 <= i < j < |rs| :: rs[i].id != rs[j].id) && forall i | 0 <= i < |rs| :: rs[i].id != ""
  }

  lemma SameIdSameResource(rs: seq<Resource>, a: Resource, b: Resource)
    requires OneEntryPerId(rs) && a in rs && b in rs && a.id == b.id
    ensures a == b
  {
    var i :| 0 <= i < |rs| && rs[i] == a;
    var j :| 0 <= j < |rs| && rs[j] == b;
  }

  // ---------------------------------------------------------------------------------
  // Indexes

  function ByUid(rs: seq<Resource>): map<string, Resource> {
    if rs == [] then map[]
    else
      var r := rs[|rs| - 1];
      if r.uid != "" then ByUid(rs[..|rs| - 1])[r.uid := r] else ByUid(rs[..|rs| - 1])
  }

  function ById(rs: seq<Resource>): map<string, Resource> {
    if rs == [] then map[] else ById(rs[..|rs| - 1])[rs[|rs| - 1].id := rs[|rs| - 1]]
  }

  function Workloads(rs: seq<Resource>): map<string, Resource> {
    if rs == [] then map[]
    else
      var r := rs[|rs| - 1];
      if WorkloadKind(r.kind) then Workloads(rs[..|rs| - 1])[r.id := r] else Workloads(rs[..|rs| - 1])
  }

  lemma {:induction false} ByUidMembers(rs: seq<Resource>, u: string)
    requires u in ByUid(rs)
    ensures ByUid(rs)[u] in rs
  {
    var n := |rs| - 1;
    if u in ByUid(rs[..n]) { ByUidMembers(rs[..n], u); }
  }

  lemma {:induction false} ByIdMembers(rs: seq<Resource>, id: string)
    ensures id in ById(rs) ==> ById(rs)[id] in rs && ById(rs)[id].id == id
    ensures id in ById(rs) <==> exists r | r in rs :: r.id == id
  {
    if rs != [] {
      var n := |rs| - 1;
      assert rs == rs[..n] + [rs[n]];
      ByIdMembers(rs[..n], id);
    }
  }

  lemma {:induction false} WorkloadMembers(rs: seq<Resource>, id: string)
    ensures id in Workloads(rs) ==>
              Workloads(rs)[id] in rs && Workloads(rs)[id].id == id && WorkloadKind(Workloads(rs)[id].kind)
    ensures id in Workloads(rs) <==> exists r | r in rs :: WorkloadKind(r.kind) && r.id == id
  {
    if rs != [] {
      var n := |rs| - 1;
      assert rs == rs[..n] + [rs[n]];
      WorkloadMembers(rs[..n], id);
    }
  }

  method BuildIndexes(rs: seq<Resource>) returns (byUid: map<string, Resource>, byId: map<string, Resource>)
    ensures byUid == ByUid(rs) && byId == ById(rs)
  {
    byUid, byId := map[], map[];
    var i := 0;
    while i < |rs|
      invariant 0 <= i <= |rs|
      invariant byUid == ByUid(rs[..i]) && byId == ById(rs[..i])
    {
      var r := rs[i];
      assert rs[..i + 1][..i] == rs[..i];
      if r.uid != "" { byUid := byUid[r.uid := r]; }
      byId := byId[r.id := r];
      i := i + 1;
    }
    assert rs[..i] == rs;
  }

  method FindWorkloads(rs: seq<Resource>) returns (workloads: map<string, Resource>)
    ensures workloads == Workloads(rs)
  {
    workloads := map[];
    var i := 0;
    while i < |rs|
      invariant 0 <= i <= |rs|
      invariant workloads == Workloads(rs[..i])
    {
      assert rs[..i + 1][..i] == rs[..i];
      if WorkloadKind(rs[i].kind) { workloads := workloads[rs[i].id := rs[i]]; }
      i := i + 1;
    }
    assert rs[..i] == rs;
  }

  // ---------------------------------------------------------------------------------
  // The owner chain

  function Owner(byUid: map<string, Resource>, r: Resource): Option<Resource> {
    if r.owners == [] || r.owners[0] !in byUid then None else Some(byUid[r.owners[0]])
  }

  /** The resource n first-owner references above r. */
  function Chain(byUid: map<string, Resource>, r: Resource, n: nat): Option<Resource> {
    if n == 0 then Some(r)
    else match Chain(byUid, r, n - 1)
         case None => None
         case Some(c) => Owner(byUid, c)
  }

  ghost predicate Hits(byUid: map<string, Resource>, workloads: map<string, Resource>, r: Resource, n: nat) {
    Chain(byUid, r, n).Some? && Chain(byUid, r, n).value.id in workloads
  }

  ghost predicate NoHitBefore(byUid: map<string, Resource>, workloads: map<string, Resource>, r: Resource, n: nat) {
    forall m: nat | m < n :: !Hits(byUid, workloads, r, m)
  }

  lemma NoHitYet(byUid: map<string, Resource>, workloads: map<string, Resource>, r: Resource, n: nat)
    requires NoHitBefore(byUid, workloads, r, n) && !Hits(byUid, workloads, r, n)
    ensures NoHitBefore(byUid, workloads, r, n + 1)
  {
  }

  /** The chain reaches its first workload after n steps. */
  ghost predicate FirstHit(byUid: map<string, Resource>, workloads: map<string, Resource>, r: Resource, n: nat) {
    Hits(byUid, workloads, r, n) && NoHitBefore(byUid, workloads, r, n)
  }

  /** The workload a resource is absorbed into; empty when its chain never reaches one. */
  ghost function RootOf(byUid: map<string, Resource>, workloads: map<string, Resource>, r: Resource): string {
    if exists n: nat :: FirstHit(byUid, workloads, r, n)
    then var n: nat :| FirstHit(byUid, workloads, r, n); Chain(byUid, r, n).value.id
    else ""
  }

  lemma RootIsFirstHit(byUid: map<string, Resource>, workloads: map<string, Resource>, r: Resource, n: nat)
    requires FirstHit(byUid, workloads, r, n)
    ensures RootOf(byUid, workloads, r) == Chain(byUid, r, n).value.id
  {
    var m: nat :| FirstHit(byUid, workloads, r, m) && RootOf(byUid, workloads, r) == Chain(byUid, r, m).value.id;
    assert m == n;
  }

  lemma RootIsWorkload(byUid: map<string, Resource>, workloads: map<string, Resource>, r: Resource)
    requires RootOf(byUid, workloads, r) != ""
    ensures RootOf(byUid, workloads, r) in workloads
  {
  }

  lemma {:induction false} ChainEnds(byUid: map<string, Resource>, r: Resource, n: nat, k: nat)
    requires Chain(byUid, r, n) == None && n <= k
    ensures Chain(byUid, r, k) == None
    decreases k
  {
    if n < k { ChainEnds(byUid, r, n, k - 1); }
  }

  lemma {:induction false} ChainRepeats(byUid: map<string, Resource>, r: Resource, m: nat, n: nat, k: nat)
    requires Chain(byUid, r, m) == Chain(byUid, r, n)
    ensures Chain(byUid, r, m + k) == Chain(byUid, r, n + k)
  {
    if k > 0 { ChainRepeats(byUid, r, m, n, k - 1); }
  }

  /** A chain that comes back to itself before it reached a workload never reaches one. */
  lemma {:induction false} NoHitOnACycle(byUid: map<string, Resource>, workloads: map<string, Resource>, r: Resource,
                                         m: nat, n: nat, k: nat)
    requires m < n && Chain(byUid, r, m) == Chain(byUid, r, n)
    requires NoHitBefore(byUid, workloads, r, n)
    ensures !Hits(byUid, workloads, r, k)
    decreases k
  {
    if k >= n {
      ChainRepeats(byUid, r, m, n, k - n);
      NoHitOnACycle(byUid, workloads, r, m, n, m + (k - n));
    }
  }

  function Ids(rs: seq<Resource>): set<string> {
    set r | r in rs :: r.id
  }

  lemma FewerIds(all: set<string>, visited: set<string>, id: string)
    requires id in all && id !in visited
    ensures |all - (visited + {id})| < |all - visited|
  {
    assert all - (visited + {id}) == (all - visited) - {id};
  }

  /** The chain passes the id v at step m. */
  ghost predicate Passes(rs: seq<Resource>, byUid: map<string, Resource>, r: Resource, v: string, m: nat) {
    Chain(byUid, r, m).Some? && Chain(byUid, r, m).value in rs && Chain(byUid, r, m).value.id == v
  }

  lemma SecondPass(rs: seq<Resource>, byUid: map<string, Resource>, workloads: map<string, Resource>, r: Resource,
                   v: string, m: nat, n: nat)
    requires OneEntryPerId(rs) && m < n && Passes(rs, byUid, r, v, m) && Passes(rs, byUid, r, v, n)
    requires NoHitBefore(byUid, workloads, r, n)
    ensures RootOf(byUid, workloads, r) == ""
  {
    SameIdSameResource(rs, Chain(byUid, r, m).value, Chain(byUid, r, n).value);
    NeverHits(byUid, workloads, r, m, n);
  }

  /** Every visited id was passed before step n. */
  ghost predicate AllPassed(rs: seq<Resource>, byUid: map<string, Resource>, r: Resource, visited: set<string>,
                            at: map<string, nat>, n: nat) {
    forall v | v in visited :: v in at && at[v] < n && Passes(rs, byUid, r, v, at[v])
  }

  lemma PassedOneMore(rs: seq<Resource>, byUid: map<string, Resource>, r: Resource, visited: set<string>,
                      at: map<string, nat>, n: nat, v: string)
    requires AllPassed(rs, byUid, r, visited, at, n) && Passes(rs, byUid, r, v, n)
    ensures AllPassed(rs, byUid, r, visited + {v}, at[v := n], n + 1)
  {
  }

  /** The walk stands at `cur` after n steps. */
  ghost predicate Walking(rs: seq<Resource>, byUid: map<string, Resource>, workloads: map<string, Resource>,
                          r: Resource, cur: Resource, visited: set<string>, at: map<string, nat>, n: nat) {
    && Chain(byUid, r, n) == Some(cur) && cur in rs
    && NoHitBefore(byUid, workloads, r, n) && AllPassed(rs, byUid, r, visited, at, n)
  }

  ghost predicate Indexes(rs: seq<Resource>, byUid: map<string, Resource>) {
    OneEntryPerId(rs) && forall u | u in byUid :: byUid[u] in rs
  }

  lemma WalkArrives(rs: seq<Resource>, byUid: map<string, Resource>, workloads: map<string, Resource>, r: Resource,
                    cur: Resource, visited: set<string>, at: map<string, nat>, n: nat)
    requires Walking(rs, byUid, workloads, r, cur, visited, at, n) && cur.id in workloads
    ensures RootOf(byUid, workloads, r) == cur.id
  {
    assert Hits(byUid, workloads, r, n);
    RootIsFirstHit(byUid, workloads, r, n);
  }

  lemma WalkCycles(rs: seq<Resource>, byUid: map<string, Resource>, workloads: map<string, Resource>, r: Resource,
                   cur: Resource, visited: set<string>, at: map<string, nat>, n: nat)
    requires OneEntryPerId(rs) && Walking(rs, byUid, workloads, r, cur, visited, at, n) && cur.id in visited
    ensures RootOf(byUid, workloads, r) == ""
  {
    SecondPass(rs, byUid, workloads, r, cur.id, at[cur.id], n);
  }

  lemma WalkStops(rs: seq<Resource>, byUid: map<string, Resource>, workloads: map<string, Resource>, r: Resource,
                  cur: Resource, visited: set<string>, at: map<string, nat>, n: nat)
    requires Walking(rs, byUid, workloads, r, cur, visited, at, n) && cur.id !in workloads && Owner(byUid, cur) == None
    ensures RootOf(byUid, workloads, r) == ""
  {
    NoHitYet(byUid, workloads, r, n);
    EndsWithoutHit(byUid, workloads, r, n);
  }

  lemma WalkGoesOn(rs: seq<Resource>, byUid: map<string, Resource>, workloads: map<string, Resource>, r: Resource,
                   cur: Resource, visited: set<string>, at: map<string, nat>, n: nat)
    requires Indexes(rs, byUid) && Walking(rs, byUid, workloads, r, cur, visited, at, n)
    requires cur.id !in workloads && cur.id !in visited && Owner(byUid, cur).Some?
    ensures Walking(rs, byUid, workloads, r, Owner(byUid, cur).value, visited + {cur.id}, at[cur.id := n], n + 1)
    ensures |Ids(rs) - (visited + {cur.id})| < |Ids(rs) - visited|
  {
    NoHitYet(byUid, workloads, r, n);
    PassedOneMore(rs, byUid, r, visited, at, n, cur.id);
    FewerIds(Ids(rs), visited, cur.id);
  }

  /** walkToWorkload. It ends on owner cycles too, and there the answer is the same: no workload. */
  method WalkToWorkload(ghost rs: seq<Resource>, r: Resource, byUid: map<string, Resource>,
                        workloads: map<string, Resource>) returns (root: string)
    requires Indexes(rs, byUid) && r in rs
    ensures root == RootOf(byUid, workloads, r)
  {
    var cur := r;
    var visited: set<string> := {};
    ghost var n: nat, at: map<string, nat> := 0, map[];
    while true
      invariant Walking(rs, byUid, workloads, r, cur, visited, at, n)
      decreases |Ids(rs) - visited|
    {
      if cur.id in workloads {
        WalkArrives(rs, byUid, workloads, r, cur, visited, at, n);
        return cur.id;
      }
      if cur.id in visited {
        WalkCycles(rs, byUid, workloads, r, cur, visited, at, n);
        return "";
      }
      if cur.owners == [] || cur.owners[0] !in byUid {
        WalkStops(rs, byUid, workloads, r, cur, visited, at, n);
        return "";
      }
      WalkGoesOn(rs, byUid, workloads, r, cur, visited, at, n);
      visited, at, n := visited + {cur.id}, at[cur.id := n], n + 1;
      cur := byUid[cur.owners[0]];
    }
  }

  lemma NeverHits(byUid: map<string, Resource>, workloads: map<string, Resource>, r: Resource, m: nat, n: nat)
    requires m < n && Chain(byUid, r, m) == Chain(byUid, r, n)
    requires NoHitBefore(byUid, workloads, r, n)
    ensures RootOf(byUid, workloads, r) == ""
  {
    forall k: nat ensures !Hits(byUid, workloads, r, k) { NoHitOnACycle(byUid, workloads, r, m, n, k); }
  }

  lemma EndsWithoutHit(byUid: map<string, Resource>, workloads: map<string, Resource>, r: Resource, n: nat)
    requires Chain(byUid, r, n + 1) == None && NoHitBefore(byUid, workloads, r, n + 1)
    ensures RootOf(byUid, workloads, r) == ""
  {
    forall k: nat ensures !Hits(byUid, workloads, r, k) {
      if k > n { ChainEnds(byUid, r, n + 1, k); }
    }
  }

  // ---------------------------------------------------------------------------------
  // Children

  /** The workload that absorbs r, if r is of an absorbed kind and its chain reaches one. */
  ghost function Absorber(byUid: map<string, Resource>, workloads: map<string, Resource>): Resource -> Option<string> {
    (r: Resource) => if AbsorbedKind(r.kind) && RootOf(byUid, workloads, r) != ""
        then Some(RootOf(byUid, workloads, r)) else None
  }

  method FindAbsorber(ghost rs: seq<Resource>, r: Resource, byUid: map<string, Resource>,
                      workloads: map<string, Resource>)
    returns (k: Option<string>)
    requires Indexes(rs, byUid) && r in rs
    ensures k == Absorber(byUid, workloads)(r)
  {
    if !AbsorbedKind(r.kind) { return None; }
    var root := WalkToWorkload(rs, r, byUid, workloads);
    return if root != "" then Some(root) else None;
  }

  method CountChildren(rs: seq<Resource>, byUid: map<string, Resource>, workloads: map<string, Resource>)
    returns (counts: map<string, nat>)
    requires Indexes(rs, byUid)
    ensures Tallied(Absorber(byUid, workloads), rs, counts)
  {
    counts := map[];
    ghost var f := Absorber(byUid, workloads);
    var i := 0;
    while i < |rs|
      invariant 0 <= i <= |rs|
      invariant Tallied(f, rs[..i], counts)
    {
      var k := FindAbsorber(rs, rs[i], byUid, workloads);
      TallyStep(f, rs, i, counts, k);
      counts := Bump(counts, k);
      i := i + 1;
    }
    assert rs[..i] == rs;
  }

  // ---------------------------------------------------------------------------------
  // Edges

  /** normalizeEndpoint; empty for endpoints that are not shown. */
  ghost function Normalized(id: string, byId: map<string, Resource>, byUid: map<string, Resource>,
                            workloads: map<string, Resource>, visible: set<string>): string {
    if id in visible then id
    else if id in byId && AbsorbedKind(byId[id].kind) then RootOf(byUid, workloads, byId[id])
    else ""
  }

  method NormalizeEndpoint(ghost rs: seq<Resource>, id: string, byId: map<string, Resource>,
                           byUid: map<string, Resource>, workloads: map<string, Resource>,
                           visible: set<string>) returns (r: string)
    requires Indexes(rs, byUid) && forall x | x in byId :: byId[x] in rs
    ensures r == Normalized(id, byId, byUid, workloads, visible)
  {
    if id in visible { return id; }
    if id !in byId { return ""; }
    if AbsorbedKind(byId[id].kind) {
      r := WalkToWorkload(rs, byId[id], byUid, workloads);
      return;
    }
    return "";
  }

  /** The edge of the view an edge of the graph counts for, if both of its ends are shown. */
  ghost function Shown(byId: map<string, Resource>, byUid: map<string, Resource>, workloads: map<string, Resource>,
                       visible: set<string>): Edge -> Option<Edge> {
    (e: Edge) =>
      var from := Normalized(e.from, byId, byUid, workloads, visible);
      var to := Normalized(e.to, byId, byUid, workloads, visible);
      if from == "" || to == "" then None else Some(Edge(from, to, e.edgeType))
  }

  method FindShown(ghost rs: seq<Resource>, e: Edge, byId: map<string, Resource>, byUid: map<string, Resource>,
                   workloads: map<string, Resource>, visible: set<string>) returns (k: Option<Edge>)
    requires Indexes(rs, byUid) && forall x | x in byId :: byId[x] in rs
    ensures k == Shown(byId, byUid, workloads, visible)(e)
  {
    var from := NormalizeEndpoint(rs, e.from, byId, byUid, workloads, visible);
    var to := NormalizeEndpoint(rs, e.to, byId, byUid, workloads, visible);
    return if from == "" || to == "" then None else Some(Edge(from, to, e.edgeType));
  }

  method CountEdges(ghost rs: seq<Resource>, es: seq<Edge>, byId: map<string, Resource>, byUid: map<string, Resource>,
                    workloads: map<string, Resource>, visible: set<string>) returns (counts: map<Edge, nat>)
    requires Indexes(rs, byUid) && forall x | x in byId :: byId[x] in rs
    ensures Tallied(Shown(byId, byUid, workloads, visible), es, counts)
  {
    counts := map[];
    ghost var f := Shown(byId, byUid, workloads, visible);
    var i := 0;
    while i < |es|
      invariant 0 <= i <= |es|
      invariant Tallied(f, es[..i], counts)
    {
      var k := FindShown(rs, es[i], byId, byUid, workloads, visible);
      TallyStep(f, es, i, counts, k);
      counts := Bump(counts, k);
      i := i + 1;
    }
    assert es[..i] == es;
  }

  lemma NormalizedIsVisible(id: string, byId: map<string, Resource>, byUid: map<string, Resource>,
                            workloads: map<string, Resource>, visible: set<string>)
    requires workloads.Keys <= visible && Normalized(id, byId, byUid, workloads, visible) != ""
    ensures Normalized(id, byId, byUid, workloads, visible) in visible
  {
    if id !in visible { RootIsWorkload(byUid, workloads, byId[id]); }
  }

  // ---------------------------------------------------------------------------------
  // The view

  function WorkloadNode(r: Resource, children: nat): Node {
    Node(r.id, true, r.kind + "/" + r.name, r.kind, r.namespace, r.name, children, 0, 0)
  }

  function RawNode(r: Resource): Node {
    Node(r.id, false, "", r.kind, r.namespace, r.name, 0, 0, 0)
  }

  ghost function ChildCount(rs: seq<Resource>, id: string): nat {
    CountOf(Absorber(ByUid(rs), Workloads(rs)), rs, id)
  }

  /** One aggregated node per workload, in the order of the ids. */
  ghost predicate WorkloadNodes(rs: seq<Resource>, ids: seq<string>, nodes: seq<Node>) {
    && StrictlySorted(IdKey, ids) && (forall x :: x in ids <==> x in Workloads(rs))
    && |nodes| == |ids|
    && forall i | 0 <= i < |ids| ::
         ids[i] in Workloads(rs) && nodes[i] == WorkloadNode(Workloads(rs)[ids[i]], ChildCount(rs, ids[i]))
  }

  method EmitWorkloads(rs: seq<Resource>, workloads: map<string, Resource>, counts: map<string, nat>)
    returns (ids: seq<string>, nodes: seq<Node>)
    requires workloads == Workloads(rs) && Tallied(Absorber(ByUid(rs), workloads), rs, counts)
    ensures WorkloadNodes(rs, ids, nodes)
  {
    ids := SortedIds(workloads.Keys);
    nodes := [];
    for i := 0 to |ids|
      invariant |nodes| == i
      invariant forall j | 0 <= j < i :: ids[j] in workloads
                  && nodes[j] == WorkloadNode(workloads[ids[j]], ChildCount(rs, ids[j]))
    {
      assert ids[i] in ids;
      assert Get(counts, ids[i]) == ChildCount(rs, ids[i]);
      nodes := nodes + [WorkloadNode(workloads[ids[i]], Get(counts, ids[i]))];
    }
  }

  ghost predicate PassesThrough(rs: seq<Resource>, id: string) {
    exists r | r in rs :: PassthroughKind(r.kind) && r.id == id
  }

  /** One raw node per resource of a passthrough kind, in the order of the ids. */
  ghost predicate RawNodes(rs: seq<Resource>, ids: seq<string>, nodes: seq<Node>) {
    && StrictlySorted(IdKey, ids) && (forall x :: x in ids <==> PassesThrough(rs, x))
    && |nodes| == |ids| && forall i | 0 <= i < |ids| :: ids[i] in ById(rs) && nodes[i] == RawNode(ById(rs)[ids[i]])
  }

  ghost predicate RawIds(rs: seq<Resource>, i: nat, ids: seq<string>)
    requires i <= |rs|
  {
    DistinctKeys(IdKey, ids) && forall x :: x in ids <==>
        exists j | 0 <= j < i :: PassthroughKind(rs[j].kind) && rs[j].id == x
  }

  method ListRaw(rs: seq<Resource>) returns (ids: seq<string>)
    requires OneEntryPerId(rs)
    ensures RawIds(rs, |rs|, ids)
  {
    ids := [];
    for i := 0 to |rs|
      invariant RawIds(rs, i, ids)
    {
      if PassthroughKind(rs[i].kind) {
        forall j | 0 <= j < |ids| ensures IdKey(ids[j]) != IdKey(rs[i].id) {
          assert ids[j] in ids;
          assert IdKey(ids[j])[0] == ids[j] && IdKey(rs[i].id)[0] == rs[i].id;
        }
        ids := ids + [rs[i].id];
      }
    }
  }

  method EmitRaw(rs: seq<Resource>, byId: map<string, Resource>) returns (ids: seq<string>, nodes: seq<Node>)
    requires OneEntryPerId(rs) && byId == ById(rs)
    ensures RawNodes(rs, ids, nodes)
  {
    var list := ListRaw(rs);
    ids := SortByKey(IdKey, list);
    PermutationMembers(list, ids);
    PermutationKeepsDistinct(IdKey, list, ids);
    SortedDistinctIsStrict(IdKey, ids);
    forall x ensures x in ids <==> PassesThrough(rs, x) {
      if x in ids {
        var j :| 0 <= j < |rs| && PassthroughKind(rs[j].kind) && rs[j].id == x;
        assert rs[j] in rs;
      }
    }
    nodes := [];
    for i := 0 to |ids|
      invariant |nodes| == i && forall j | 0 <= j < i :: ids[j] in byId && nodes[j] == RawNode(byId[ids[j]])
    {
      assert ids[i] in ids;
      ByIdMembers(rs, ids[i]);
      nodes := nodes + [RawNode(byId[ids[i]])];
    }
  }

  function RefKey(e: Edge): seq<string> {
    [e.from, e.to, e.edgeType]
  }

  /** The counted edges in order. */
  ghost predicate EmittedEdges(keys: seq<Edge>, counts: map<Edge, nat>, edges: seq<ViewEdge>) {
    && StrictlySorted(RefKey, keys) && (forall k :: k in keys <==> k in counts)
    && |edges| == |keys|
    && forall i | 0 <= i < |keys| ::
         edges[i] == ViewEdge(keys[i].from, keys[i].to, keys[i].edgeType, Get(counts, keys[i]))
  }

  method EmitEdges(counts: map<Edge, nat>) returns (keys: seq<Edge>, edges: seq<ViewEdge>)
    ensures EmittedEdges(keys, counts, edges)
  {
    forall x, y | x in counts.Keys && y in counts.Keys && RefKey(x) == RefKey(y) ensures x == y {
      assert RefKey(x)[0] == x.from && RefKey(x)[1] == x.to && RefKey(x)[2] == x.edgeType;
      assert RefKey(y)[0] == y.from && RefKey(y)[1] == y.to && RefKey(y)[2] == y.edgeType;
    }
    keys := SortedMembers(RefKey, counts.Keys);
    edges := [];
    for i := 0 to |keys|
      invariant |edges| == i
      invariant forall j | 0 <= j < i :: edges[j]
                  == ViewEdge(keys[j].from, keys[j].to, keys[j].edgeType, Get(counts, keys[j]))
    {
      edges := edges + [ViewEdge(keys[i].from, keys[i].to, keys[i].edgeType, Get(counts, keys[i]))];
    }
  }

  lemma StrictKeysDistinct<T>(key: T -> seq<string>, s: seq<T>)
    requires StrictlySorted(key, s)
    ensures forall i, j | 0 <= i < j < |s| :: s[i] != s[j]
  {
    forall i, j | 0 <= i < j < |s| ensures s[i] != s[j] { KeyBeforeIrreflexive(key(s[i])); }
  }

  lemma {:induction false} TotalIsSum(edges: seq<ViewEdge>, counts: seq<nat>)
    requires |edges| == |counts| && forall i | 0 <= i < |edges| :: edges[i].count == counts[i]
    ensures TotalCount(edges) == Sum(counts)
  {
    if edges != [] { TotalIsSum(edges[..|edges| - 1], counts[..|counts| - 1]); }
  }

  /** Edge counts sum to the edges whose two ends are both shown. */
  lemma EdgesConserved(f: Edge -> Option<Edge>, es: seq<Edge>, counts: map<Edge, nat>, keys: seq<Edge>,
                       edges: seq<ViewEdge>)
    requires Tallied(f, es, counts) && EmittedEdges(keys, counts, edges)
    ensures TotalCount(edges) == CountSome(f, es)
  {
    StrictKeysDistinct(RefKey, keys);
    forall e | e in es && f(e).Some? ensures f(e).value in keys {
      CountedOccurs(f, es, f(e).value);
      assert Get(counts, f(e).value) == CountOf(f, es, f(e).value);
    }
    CountsSum(f, es, keys);
    forall i | 0 <= i < |keys| ensures edges[i].count == Counts(f, es, keys)[i] {
      assert Get(counts, keys[i]) == CountOf(f, es, keys[i]);
    }
    TotalIsSum(edges, Counts(f, es, keys));
  }

  function Children(nodes: seq<Node>): seq<nat> {
    seq(|nodes|, i requires 0 <= i < |nodes| => nodes[i].children)
  }

  /** Child counts sum to the absorbed resources whose owner chain reaches a workload. */
  lemma ChildrenConserved(rs: seq<Resource>, ids: seq<string>, aggregated: seq<Node>, raws: seq<string>, raw: seq<Node>)
    requires WorkloadNodes(rs, ids, aggregated) && RawNodes(rs, raws, raw)
    ensures Sum(Children(aggregated + raw)) == CountSome(Absorber(ByUid(rs), Workloads(rs)), rs)
  {
    var f := Absorber(ByUid(rs), Workloads(rs));
    StrictKeysDistinct(IdKey, ids);
    forall r | r in rs && f(r).Some? ensures f(r).value in ids { RootIsWorkload(ByUid(rs), Workloads(rs), r); }
    CountsSum(f, rs, ids);
    assert Children(aggregated) == Counts(f, rs, ids);
    SumZero(Children(raw));
    assert Children(aggregated + raw) == Children(aggregated) + Children(raw);
    SumAppend(Children(aggregated), Children(raw));
  }

  function VisibleIds(nodes: seq<Node>): set<string> {
    set n | n in nodes :: n.id
  }

  lemma WorkloadsVisible(rs: seq<Resource>, ids: seq<string>, aggregated: seq<Node>, raw: seq<Node>)
    requires WorkloadNodes(rs, ids, aggregated)
    ensures Workloads(rs).Keys <= VisibleIds(aggregated + raw)
  {
    forall id | id in Workloads(rs) ensures id in VisibleIds(aggregated + raw) {
      assert id in ids;
      var i :| 0 <= i < |ids| && ids[i] == id;
      WorkloadMembers(rs, id);
      assert (aggregated + raw)[i].id == id;
    }
  }

  /** Every endpoint of an emitted edge is a node. */
  lemma EndpointsVisible(rs: seq<Resource>, es: seq<Edge>, visible: set<string>, counts: map<Edge, nat>,
                         keys: seq<Edge>, edges: seq<ViewEdge>)
    requires Workloads(rs).Keys <= visible
    requires Tallied(Shown(ById(rs), ByUid(rs), Workloads(rs), visible), es, counts)
               && EmittedEdges(keys, counts, edges)
    ensures forall v | v in edges :: v.from in visible && v.to in visible && v.count > 0
  {
    var f := Shown(ById(rs), ByUid(rs), Workloads(rs), visible);
    forall v | v in edges ensures v.from in visible && v.to in visible && v.count > 0 {
      var i :| 0 <= i < |edges| && edges[i] == v;
      assert keys[i] in keys;
      assert Get(counts, keys[i]) == CountOf(f, es, keys[i]);
      CountedOccurs(f, es, keys[i]);
      var e :| e in es && f(e) == Some(keys[i]);
      NormalizedIsVisible(e.from, ById(rs), ByUid(rs), Workloads(rs), visible);
      NormalizedIsVisible(e.to, ById(rs), ByUid(rs), Workloads(rs), visible);
    }
  }

  /** The nodes of the view before their edges are counted. */
  ghost predicate Base(rs: seq<Resource>, base: seq<Node>) {
    exists ids, aggregated, raws, raw :: WorkloadNodes(rs, ids, aggregated) && RawNodes(rs, raws, raw)
        && base == aggregated + raw
  }

  ghost predicate EdgesOf(rs: seq<Resource>, es: seq<Edge>, visible: set<string>, edges: seq<ViewEdge>) {
    exists keys, counts :: Tallied(Shown(ById(rs), ByUid(rs), Workloads(rs), visible), es, counts)
        && EmittedEdges(keys, counts, edges)
  }

  method BuildNodes(rs: seq<Resource>, byUid: map<string, Resource>, byId: map<string, Resource>,
                    workloads: map<string, Resource>)
    returns (base: seq<Node>)
    requires OneEntryPerId(rs) && byUid == ByUid(rs) && byId == ById(rs) && workloads == Workloads(rs)
    ensures Base(rs, base) && workloads.Keys <= VisibleIds(base)
    ensures Sum(Children(base)) == CountSome(Absorber(byUid, workloads), rs)
    ensures forall i | 0 <= i < |base| :: base[i].edgesIn == 0 && base[i].edgesOut == 0
  {
    forall u | u in byUid ensures byUid[u] in rs { ByUidMembers(rs, u); }
    var counts := CountChildren(rs, byUid, workloads);
    var ids, aggregated := EmitWorkloads(rs, workloads, counts);
    var raws, raw := EmitRaw(rs, byId);
    base := aggregated + raw;
    ChildrenConserved(rs, ids, aggregated, raws, raw);
    WorkloadsVisible(rs, ids, aggregated, raw);
    NotYetCounted(rs, ids, aggregated, raws, raw);
  }

  lemma NotYetCounted(rs: seq<Resource>, ids: seq<string>, aggregated: seq<Node>, raws: seq<string>, raw: seq<Node>)
    requires WorkloadNodes(rs, ids, aggregated) && RawNodes(rs, raws, raw)
    ensures forall i | 0 <= i < |aggregated + raw| ::
              (aggregated + raw)[i].edgesIn == 0 && (aggregated + raw)[i].edgesOut == 0
  {
  }

  method BuildEdges(rs: seq<Resource>, es: seq<Edge>, byUid: map<string, Resource>, byId: map<string, Resource>,
                    workloads: map<string, Resource>, visible: set<string>) returns (edges: seq<ViewEdge>)
    requires OneEntryPerId(rs) && byUid == ByUid(rs) && byId == ById(rs) && workloads == Workloads(rs)
               && workloads.Keys <= visible
    ensures EdgesOf(rs, es, visible, edges)
    ensures TotalCount(edges) == CountSome(Shown(byId, byUid, workloads, visible), es)
    ensures forall v | v in edges :: v.from in visible && v.to in visible && v.count > 0
  {
    forall u | u in byUid ensures byUid[u] in rs { ByUidMembers(rs, u); }
    forall x | x in byId ensures byId[x] in rs { ByIdMembers(rs, x); }
    var counts := CountEdges(rs, es, byId, byUid, workloads, visible);
    var keys;
    keys, edges := EmitEdges(counts);
    EdgesConserved(Shown(byId, byUid, workloads, visible), es, counts, keys, edges);
    EndpointsVisible(rs, es, visible, counts, keys, edges);
  }

  datatype Subgraph = Subgraph(resources: seq<Resource>, edges: seq<Edge>)

  datatype Outcome = BadScope | StoreError | Built

  /** What the namespace view promises. */
  ghost predicate Collapsed(rs: seq<Resource>, es: seq<Edge>, base: seq<Node>, idx: map<string, nat>, nodes: seq<Node>,
                            edges: seq<ViewEdge>) {
    var visible := VisibleIds(base);
    && Base(rs, base) && EdgesOf(rs, es, visible, edges) && Indexed(base, idx) && AllAnnotated(base, idx, edges, nodes)
    && (forall v | v in edges :: v.from in visible && v.to in visible)
    && Sum(Children(nodes)) == CountSome(Absorber(ByUid(rs), Workloads(rs)), rs)
    && TotalCount(edges) == CountSome(Shown(ById(rs), ByUid(rs), Workloads(rs), visible), es)
    && Sum(EdgesIn(nodes)) == TotalCount(edges) == Sum(EdgesOut(nodes))
  }

  lemma CountedView(rs: seq<Resource>, es: seq<Edge>, base: seq<Node>, idx: map<string, nat>, nodes: seq<Node>,
                    edges: seq<ViewEdge>)
    requires Base(rs, base) && EdgesOf(rs, es, VisibleIds(base), edges) && Indexed(base, idx)
               && AllAnnotated(base, idx, edges, nodes)
    requires Sum(Children(base)) == CountSome(Absorber(ByUid(rs), Workloads(rs)), rs)
    requires forall i | 0 <= i < |base| :: base[i].edgesIn == 0 && base[i].edgesOut == 0
    requires TotalCount(edges) == CountSome(Shown(ById(rs), ByUid(rs), Workloads(rs), VisibleIds(base)), es)
    requires forall v | v in edges :: v.from in VisibleIds(base) && v.to in VisibleIds(base)
    ensures Collapsed(rs, es, base, idx, nodes, edges)
  {
    VisibleIndexed(base, idx);
    InIsOutIsTotal(base, idx, edges, nodes);
    assert Children(nodes) == Children(base);
  }

  method Fill(view: View, rs: seq<Resource>, es: seq<Edge>) returns (ghost base: seq<Node>, ghost idx: map<string, nat>)
    requires OneEntryPerId(rs)
    modifies view
    ensures Collapsed(rs, es, base, idx, view.nodes, view.edges)
  {
    var byUid, byId := BuildIndexes(rs);
    var workloads := FindWorkloads(rs);
    var nodes := BuildNodes(rs, byUid, byId, workloads);
    var edges := BuildEdges(rs, es, byUid, byId, workloads, VisibleIds(nodes));
    view.nodes, view.edges, base := nodes, edges, nodes;
    idx := view.AnnotateEdgeCounts();
    CountedView(rs, es, base, idx, view.nodes, edges);
  }

  /** Aggregate of the namespace level; `sub` is the store's answer for the namespace. */
  method Aggregate(namespace: string, sub: Option<Subgraph>)
    returns (r: Outcome, view: View, ghost base: seq<Node>, ghost idx: map<string, nat>)
    requires sub.Some? ==> OneEntryPerId(sub.value.resources)
    ensures fresh(view)
    ensures r == (if namespace == "" then BadScope else if sub.None? then StoreError else Built)
    ensures r == Built ==> Collapsed(sub.value.resources, sub.value.edges, base, idx, view.nodes, view.edges)
  {
    view := new View();
    base, idx := [], map[];
    if namespace == "" { return BadScope, view, base, idx; }
    if sub.None? { return StoreError, view, base, idx; }
    base, idx := Fill(view, sub.value.resources, sub.value.edges);
    r := Built;
  }

  lemma VisibleIndexed(nodes: seq<Node>, idx: map<string, nat>)
    requires Indexed(nodes, idx)
    ensures forall id | id in VisibleIds(nodes) :: id in idx
  {
  }

  /** What a node shows of its resource. */
  ghost predicate Shows(n: Node, r: Resource) {
    && n.id == r.id && n.kind == r.kind && n.namespace == r.namespace && n.name == r.name
    && (if n.aggregated then WorkloadKind(r.kind) && n.caption == n.kind + "/" + n.name
        else PassthroughKind(r.kind) && n.caption == "" && n.children == 0)
  }

  lemma BaseShows(rs: seq<Resource>, base: seq<Node>, i: nat)
    requires OneEntryPerId(rs) && Base(rs, base) && i < |base|
    ensures exists r | r in rs :: Shows(base[i], r)
  {
    var ids, aggregated, raws, raw :| WorkloadNodes(rs, ids, aggregated) && RawNodes(rs, raws, raw)
                                      && base == aggregated + raw;
    if i < |aggregated| {
      WorkloadMembers(rs, ids[i]);
      assert Shows(base[i], Workloads(rs)[ids[i]]);
    } else {
      var k := i - |aggregated|;
      assert raws[k] in raws && PassesThrough(rs, raws[k]);
      ByIdMembers(rs, raws[k]);
      var r :| r in rs && PassthroughKind(r.kind) && r.id == raws[k];
      SameIdSameResource(rs, r, ById(rs)[raws[k]]);
      assert base[i] == raw[k] && Shows(base[i], r);
    }
  }

  /** Every node shows a resource of the namespace: a workload as an aggregate, anything else as itself. */
  lemma NodesShowTheirResources(rs: seq<Resource>, es: seq<Edge>, base: seq<Node>, idx: map<string, nat>,
                                nodes: seq<Node>, edges: seq<ViewEdge>, n: Node)
    requires OneEntryPerId(rs) && Collapsed(rs, es, base, idx, nodes, edges) && n in nodes
    ensures exists r | r in rs :: Shows(n, r)
  {
    var i :| 0 <= i < |nodes| && nodes[i] == n;
    BaseShows(rs, base, i);
    var r :| r in rs && Shows(base[i], r);
    assert Shows(n, r);
  }
}
