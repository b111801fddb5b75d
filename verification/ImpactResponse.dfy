/** The client's check of a captured impact response against the query it answers, and the check before rendering it. */
module ImpactResponse {

  import opened Options
  import opened ImpactQuery

  const SCHEMA := "1"
  const ALL_NAMESPACES := "all_namespaces_in_selected_cluster"

  datatype Identity = Identity(id: string, cluster: string, namespace: string, kind: string, name: string, uid: string,
                               resourceVersion: string, referenceOnly: bool)

  /** A stored edge and the direction in which it was walked. */
  datatype Step = Step(from: string, to: string, edgeType: string, traversalFrom: string, traversalTo: string)

  datatype Match = Match(resource: Identity, depth: int, path: seq<Step>)

  /** A step of the authorization facet carries evidence beside the edge. */
  datatype AuthStep = AuthStep(step: Step, evidence: string)
  datatype AuthMatch = AuthMatch(resource: Identity, depth: int, path: seq<AuthStep>)

  datatype Counts = Counts(total: int, direct: int, indirect: int)

  datatype Authorization = Authorization(maxDepth: int, limit: int, resources: seq<AuthMatch>, counts: Counts)

  /** The clusters named by one coverage snapshot: its own, its sources', its inventory's. */
  datatype Snapshot = Snapshot(cluster: string, sources: seq<string>, inventory: Option<string>)

  datatype Availability = Availability(cluster: string, retention: Option<string>)

  datatype Reference = Reference(from: string, to: string)

  /** `observation` holds the four snapshots: before and after, of the ordinary and of the authorization facet. */
  datatype Analysis = Analysis(root: Identity, relation: string, maxDepth: int, limit: int, resources: seq<Match>,
                               counts: Counts, authorization: Authorization, references: seq<Reference>,
                               observation: Option<seq<Snapshot>>, availability: Option<Availability>)

  datatype Scope = Scope(cluster: string, mode: string, namespaces: string)

  /** `timed` says that the generation time is set, `warned` that the sharing warning is the expected one. */
  datatype Response = Response(schema: string, version: string, timed: bool, warned: bool, scope: Scope,
                               analysis: Option<Analysis>)

  function ResourceId(cluster: string, namespace: string, kind: string, name: string): string {
    var id := namespace + "/" + kind + "/" + name;
    if cluster == "" then id else cluster + ":" + id
  }

  function RootId(q: Query): string {
    ResourceId(q.cluster, q.namespace, q.kind, q.name)
  }

  function Mode(q: Query): string {
    if q.cluster == "" then "single" else "federated"
  }

  // ---------------------------------------------------------------------------------
  // What an accepted response is

  predicate HeaderOk(r: Response, q: Query) {
    r.schema == SCHEMA && r.version != "" && r.timed && r.warned && r.scope == Scope(q.cluster, Mode(q), ALL_NAMESPACES)
  }

  predicate RootOk(root: Identity, q: Query) {
    && root.id == RootId(q) && root.namespace == q.namespace && root.kind == q.kind && root.name == q.name
       && root.cluster == q.cluster
    && (q.expectedUid != "" ==> root.uid == q.expectedUid)
  }

  predicate EchoOk(a: Analysis, q: Query) {
    && a.relation == q.relation && a.maxDepth == q.maxDepth && a.limit == q.limit
    && a.authorization.maxDepth == q.maxDepth && a.authorization.limit == q.limit
  }

  predicate SnapshotOk(s: Snapshot, cluster: string) {
    s.cluster == cluster && (forall i | 0 <= i < |s.sources| :: s.sources[i] == cluster)
        && (s.inventory.Some? ==> s.inventory.value == cluster)
  }

  predicate EvidenceOk(a: Analysis, cluster: string) {
    && a.observation.Some? && a.availability.Some? && a.availability.value.cluster == cluster
    && (a.availability.value.retention.Some? ==> a.availability.value.retention.value == cluster)
    && forall i | 0 <= i < |a.observation.value| :: SnapshotOk(a.observation.value[i], cluster)
  }

  /** An identity is of the asked cluster and spells its own id; a Secret is a bare reference. */
  predicate IdentityOk(i: Identity, cluster: string) {
    && i.id == ResourceId(i.cluster, i.namespace, i.kind, i.name) && i.cluster == cluster && i.kind != ""
       && i.name != ""
    && (i.kind == "Secret" ==> i.referenceOnly && i.uid == "" && i.resourceVersion == "")
  }

  /** The root and the matches are pairwise different resources. */
  ghost predicate UniqueIds(root: string, ms: seq<Match>) {
    && (forall i | 0 <= i < |ms| :: ms[i].resource.id != root)
    && forall i, j | 0 <= i < j < |ms| :: ms[i].resource.id != ms[j].resource.id
  }

  ghost function Ids(root: string, ms: seq<Match>): set<string> {
    {root} + set i | 0 <= i < |ms| :: ms[i].resource.id
  }

  function CountDirect(ms: seq<Match>): nat {
    if ms == [] then 0 else CountDirect(ms[..|ms| - 1]) + if ms[|ms| - 1].depth == 1 then 1 else 0
  }

  predicate CountsOk(c: Counts, ms: seq<Match>) {
    c.total == |ms| && c.direct == CountDirect(ms) && c.indirect == |ms| - CountDirect(ms)
  }

  /** Where the walk stands after i steps. */
  function At(root: string, path: seq<Step>, i: nat): string
    requires i <= |path|
  {
    if i == 0 then root else path[i - 1].traversalTo
  }

  /** A step goes on from where the walk stands, along an edge between listed resources, forward or backward. */
  predicate StepOk(s: Step, at: string, ids: set<string>) {
    && s.from in ids && s.to in ids && s.traversalFrom == at
    && ((s.traversalFrom == s.from && s.traversalTo == s.to) || (s.traversalFrom == s.to && s.traversalTo == s.from))
  }

  /** Step i of a path goes on from where the steps before it led. */
  predicate Continues(path: seq<Step>, root: string, ids: set<string>, i: nat)
    requires i < |path|
  {
    StepOk(path[i], At(root, path, i), ids)
  }

  /** A chain of exactly `depth` steps from the root to the target. */
  ghost predicate PathOk(path: seq<Step>, depth: int, root: string, target: string, ids: set<string>, maxDepth: int) {
    && 1 <= depth <= maxDepth && |path| == depth
    && (forall i: nat | i < |path| :: Continues(path, root, ids, i))
    && At(root, path, |path|) == target
  }

  ghost predicate Reached(m: Match, root: string, ids: set<string>, maxDepth: int) {
    PathOk(m.path, m.depth, root, m.resource.id, ids, maxDepth)
  }

  /** Every match is an identity of the cluster, and none is listed twice. */
  ghost predicate Listed(root: string, ms: seq<Match>, cluster: string) {
    UniqueIds(root, ms) && forall i | 0 <= i < |ms| :: IdentityOk(ms[i].resource, cluster)
  }

  /** What is asked of the matches of either facet. */
  ghost predicate FacetOk(root: string, ms: seq<Match>, counts: Counts, q: Query) {
    && |ms| <= q.limit && CountsOk(counts, ms) && Listed(root, ms, q.cluster)
    && forall i | 0 <= i < |ms| :: Reached(ms[i], root, Ids(root, ms), q.maxDepth)
  }

  function Steps(path: seq<AuthStep>): seq<Step> {
    seq(|path|, i requires 0 <= i < |path| => path[i].step)
  }

  function Plain(m: AuthMatch): Match {
    Match(m.resource, m.depth, Steps(m.path))
  }

  function PlainMatches(ms: seq<AuthMatch>): seq<Match> {
    seq(|ms|, i requires 0 <= i < |ms| => Plain(ms[i]))
  }

  ghost predicate Valid(r: Response, q: Query) {
    && HeaderOk(r, q) && r.analysis.Some?
    && var a := r.analysis.value;
       && RootOk(a.root, q) && EchoOk(a, q) && EvidenceOk(a, q.cluster) && IdentityOk(a.root, q.cluster)
       && FacetOk(a.root.id, a.resources, a.counts, q)
       && FacetOk(a.root.id, PlainMatches(a.authorization.resources), a.authorization.counts, q)
       && forall i | 0 <= i < |a.references| :: a.references[i].from in Ids(a.root.id, a.resources)
                                               && a.references[i].to in Ids(a.root.id, a.resources)
  }

  // ---------------------------------------------------------------------------------
  // validateResponse

  method CheckSnapshots(ss: seq<Snapshot>, cluster: string) returns (ok: bool)
    ensures ok <==> forall i | 0 <= i < |ss| :: SnapshotOk(ss[i], cluster)
  {
    for i := 0 to |ss|
      invariant forall j | 0 <= j < i :: SnapshotOk(ss[j], cluster)
    {
      if ss[i].cluster != cluster { return false; }
      for k := 0 to |ss[i].sources|
        invariant forall j | 0 <= j < k :: ss[i].sources[j] == cluster
      {
        if ss[i].sources[k] != cluster { return false; }
      }
      if ss[i].inventory.Some? && ss[i].inventory.value != cluster { return false; }
    }
    return true;
  }

  /** The loop over the identities of a facet. */
  method CheckIdentities(root: string, ms: seq<Match>, cluster: string)
    returns (ok: bool, ids: set<string>, direct: nat)
    ensures ok <==> Listed(root, ms, cluster)
    ensures ok ==> ids == Ids(root, ms) && direct == CountDirect(ms)
  {
    ids, direct := {root}, 0;
    for i := 0 to |ms|
      invariant Listed(root, ms[..i], cluster) && ids == Ids(root, ms[..i]) && direct == CountDirect(ms[..i])
    {
      DirectOneMore(ms, i);
      if ms[i].depth == 1 { direct := direct + 1; }
      if !IdentityOk(ms[i].resource, cluster) || ms[i].resource.id in ids {
        SeenBefore(root, ms, i);
        return false, ids, direct;
      }
      ListedOneMore(root, ms, i, cluster);
      ids := ids + {ms[i].resource.id};
    }
    assert ms[..|ms|] == ms;
    ok := true;
  }

  lemma DirectOneMore(ms: seq<Match>, i: nat)
    requires i < |ms|
    ensures CountDirect(ms[..i + 1]) == CountDirect(ms[..i]) + if ms[i].depth == 1 then 1 else 0
  {
    assert ms[..i + 1][..i] == ms[..i];
  }

  lemma ListedOneMore(root: string, ms: seq<Match>, i: nat, cluster: string)
    requires i < |ms| && Listed(root, ms[..i], cluster) && IdentityOk(ms[i].resource, cluster)
               && ms[i].resource.id !in Ids(root, ms[..i])
    ensures Listed(root, ms[..i + 1], cluster) && Ids(root, ms[..i + 1]) == Ids(root, ms[..i]) + {ms[i].resource.id}
  {
    NewId(root, ms, i);
    var longer := ms[..i + 1];
    forall j | 0 <= j < |longer| ensures IdentityOk(longer[j].resource, cluster) {
      if j < i { assert longer[j] == ms[..i][j]; }
    }
  }

  lemma SeenBefore(root: string, ms: seq<Match>, i: nat)
    requires i < |ms|
    ensures ms[i].resource.id in Ids(root, ms[..i]) ==> !UniqueIds(root, ms)
  {
  }

  lemma NewId(root: string, ms: seq<Match>, i: nat)
    requires i < |ms| && UniqueIds(root, ms[..i]) && ms[i].resource.id !in Ids(root, ms[..i])
    ensures UniqueIds(root, ms[..i + 1]) && Ids(root, ms[..i + 1]) == Ids(root, ms[..i]) + {ms[i].resource.id}
  {
    var ids := Ids(root, ms[..i]);
    forall j | 0 <= j < i ensures ms[j].resource.id in ids { assert ms[..i][j] == ms[j]; }
    forall x ensures x in Ids(root, ms[..i + 1]) <==> x in ids + {ms[i].resource.id} {
      if x in ids && x != root {
        var j :| 0 <= j < i && ms[..i][j].resource.id == x;
        assert ms[..i + 1][j].resource.id == x;
      }
      assert ms[..i + 1][i] == ms[i];
    }
  }

  /** validPath */
  method CheckPath(path: seq<Step>, depth: int, root: string, target: string, ids: set<string>, maxDepth: int)
    returns (ok: bool)
    ensures ok <==> PathOk(path, depth, root, target, ids, maxDepth)
  {
    if depth < 1 || depth > maxDepth || |path| != depth { return false; }
    var last := root;
    for i := 0 to |path|
      invariant last == At(root, path, i)
      invariant forall j: nat | j < i :: Continues(path, root, ids, j)
    {
      var step := path[i];
      var forward := step.traversalFrom == step.from && step.traversalTo == step.to;
      var reverse := step.traversalFrom == step.to && step.traversalTo == step.from;
      if step.from !in ids || step.to !in ids || step.traversalFrom != last || (!forward && !reverse) {
        assert !Continues(path, root, ids, i);
        return false;
      }
      last := step.traversalTo;
    }
    return last == target;
  }

  method CheckMatch(m: Match, root: string, ids: set<string>, maxDepth: int) returns (ok: bool)
    ensures ok <==> Reached(m, root, ids, maxDepth)
  {
    ok := CheckPath(m.path, m.depth, root, m.resource.id, ids, maxDepth);
  }

  method CheckPaths(root: string, ms: seq<Match>, ids: set<string>, maxDepth: int) returns (ok: bool)
    ensures ok <==> forall i | 0 <= i < |ms| :: Reached(ms[i], root, ids, maxDepth)
  {
    for i := 0 to |ms|
      invariant forall j | 0 <= j < i :: Reached(ms[j], root, ids, maxDepth)
    {
      var good := CheckMatch(ms[i], root, ids, maxDepth);
      if !good { return false; }
    }
    return true;
  }

  /** Identities, then counts, then paths of one facet. */
  method CheckFacet(root: string, ms: seq<Match>, counts: Counts, q: Query) returns (ok: bool, ids: set<string>)
    ensures ok <==> FacetOk(root, ms, counts, q)
    ensures ok ==> ids == Ids(root, ms)
  {
    ids := {};
    if |ms| > q.limit || counts.total != |ms| { return false, ids; }
    var direct;
    ok, ids, direct := CheckIdentities(root, ms, q.cluster);
    if !ok { return; }
    if counts.direct != direct || counts.indirect != counts.total - direct { return false, ids; }
    ok := CheckPaths(root, ms, ids, q.maxDepth);
  }

  method CheckReferences(refs: seq<Reference>, ids: set<string>) returns (ok: bool)
    ensures ok <==> forall i | 0 <= i < |refs| :: refs[i].from in ids && refs[i].to in ids
  {
    for i := 0 to |refs|
      invariant forall j | 0 <= j < i :: refs[j].from in ids && refs[j].to in ids
    {
      if refs[i].from !in ids || refs[i].to !in ids { return false; }
    }
    return true;
  }

  method CheckEvidence(a: Analysis, cluster: string) returns (ok: bool)
    ensures ok <==> EvidenceOk(a, cluster)
  {
    if a.observation.None? || a.availability.None? || a.availability.value.cluster != cluster { return false; }
    if a.availability.value.retention.Some? && a.availability.value.retention.value != cluster { return false; }
    ok := CheckSnapshots(a.observation.value, cluster);
  }

  /** validateResponse */
  method ValidateResponse(r: Response, q: Query) returns (ok: bool)
    ensures ok <==> Valid(r, q)
  {
    if !HeaderOk(r, q) || r.analysis.None? { return false; }
    var a := r.analysis.value;
    if !RootOk(a.root, q) || !EchoOk(a, q) || !IdentityOk(a.root, q.cluster) { return false; }
    ok := CheckEvidence(a, q.cluster);
    if !ok { return; }
    var ids, authIds;
    ok, ids := CheckFacet(a.root.id, a.resources, a.counts, q);
    if !ok { return; }
    ok, authIds := CheckFacet(a.root.id, PlainMatches(a.authorization.resources), a.authorization.counts, q);
    if !ok { return; }
    ok := CheckReferences(a.references, ids);
  }

  // ---------------------------------------------------------------------------------
  // What acceptance means

  /** Every place the walk passes is a listed resource. */
  lemma WalkStaysListed(path: seq<Step>, depth: int, root: string, target: string, ids: set<string>, maxDepth: int,
                        i: nat)
    requires PathOk(path, depth, root, target, ids, maxDepth) && i <= |path| && root in ids
    ensures At(root, path, i) in ids
  {
    if i > 0 { assert Continues(path, root, ids, i - 1); }
  }

  ghost predicate Joined(s: Step, here: string, there: string) {
    (s.from == here && s.to == there) || (s.from == there && s.to == here)
  }

  /** Each match is reached from the root by exactly Depth stored edges, all between listed resources. */
  lemma MatchesAreReached(r: Response, q: Query, i: nat) returns (nodes: seq<string>)
    requires Valid(r, q) && i < |r.analysis.value.resources|
    ensures var m := r.analysis.value.resources[i];
            var ids := Ids(r.analysis.value.root.id, r.analysis.value.resources);
            && 1 <= m.depth <= q.maxDepth && |m.path| == m.depth && |nodes| == m.depth + 1
            && nodes[0] == RootId(q) && nodes[m.depth] == m.resource.id
            && (forall k | 0 <= k <= m.depth :: nodes[k] in ids)
            && forall k | 0 <= k < m.depth :: Joined(m.path[k], nodes[k], nodes[k + 1])
  {
    var a := r.analysis.value;
    nodes := ChainOf(a.root.id, a.resources, a.counts, q, i);
  }

  /** The same for the authorization facet, whose identities are listed apart. */
  lemma AuthorizationIsReached(r: Response, q: Query, i: nat) returns (nodes: seq<string>)
    requires Valid(r, q) && i < |r.analysis.value.authorization.resources|
    ensures var m := r.analysis.value.authorization.resources[i];
            var ids := Ids(r.analysis.value.root.id, PlainMatches(r.analysis.value.authorization.resources));
            && 1 <= m.depth <= q.maxDepth && |m.path| == m.depth && |nodes| == m.depth + 1
            && nodes[0] == RootId(q) && nodes[m.depth] == m.resource.id
            && (forall k | 0 <= k <= m.depth :: nodes[k] in ids)
            && forall k | 0 <= k < m.depth :: Joined(m.path[k].step, nodes[k], nodes[k + 1])
  {
    var a := r.analysis.value;
    var ms := PlainMatches(a.authorization.resources);
    nodes := ChainOf(a.root.id, ms, a.authorization.counts, q, i);
    assert ms[i] == Plain(a.authorization.resources[i]);
    assert forall k | 0 <= k < |ms[i].path| :: ms[i].path[k] == a.authorization.resources[i].path[k].step;
  }

  lemma ChainOf(root: string, ms: seq<Match>, counts: Counts, q: Query, i: nat) returns (nodes: seq<string>)
    requires FacetOk(root, ms, counts, q) && i < |ms|
    ensures var m := ms[i];
            && 1 <= m.depth <= q.maxDepth && |m.path| == m.depth && |nodes| == m.depth + 1
            && nodes[0] == root && nodes[m.depth] == m.resource.id
            && (forall k | 0 <= k <= m.depth :: nodes[k] in Ids(root, ms))
            && forall k | 0 <= k < m.depth :: Joined(m.path[k], nodes[k], nodes[k + 1])
  {
    assert Reached(ms[i], root, Ids(root, ms), q.maxDepth);
    nodes := PathNodes(ms[i].path, ms[i].depth, root, ms[i].resource.id, Ids(root, ms), q.maxDepth);
  }

  lemma {:induction false} PathNodes(path: seq<Step>, depth: int, root: string, target: string, ids: set<string>,
                                     maxDepth: int) returns (nodes: seq<string>)
    requires PathOk(path, depth, root, target, ids, maxDepth) && root in ids
    ensures |nodes| == depth + 1 && nodes[0] == root && nodes[depth] == target
    ensures forall k | 0 <= k <= depth :: nodes[k] in ids
    ensures forall k | 0 <= k < depth :: Joined(path[k], nodes[k], nodes[k + 1])
  {
    nodes := seq(depth + 1, k requires 0 <= k <= depth => At(root, path, k));
    forall k | 0 <= k <= depth ensures nodes[k] in ids {
      WalkStaysListed(path, depth, root, target, ids, maxDepth, k);
    }
    forall k | 0 <= k < depth ensures Joined(path[k], nodes[k], nodes[k + 1]) { StepJoins(path, root, ids, k); }
  }

  lemma {:induction false} StepJoins(path: seq<Step>, root: string, ids: set<string>, k: nat)
    requires k < |path| && Continues(path, root, ids, k)
    ensures Joined(path[k], At(root, path, k), At(root, path, k + 1))
  {
  }

  /** Listed identities are resources of the asked cluster, each listed once. */
  lemma {:induction false} ListedOnce(root: string, ms: seq<Match>)
    requires UniqueIds(root, ms)
    ensures |Ids(root, ms)| == |ms| + 1
  {
    if ms == [] {
      assert Ids(root, ms) == {root};
    } else {
      var n := |ms| - 1;
      assert ms[..n + 1] == ms;
      ListedOnce(root, ms[..n]);
      LastIsNew(root, ms);
      NewId(root, ms, n);
    }
  }

  lemma LastIsNew(root: string, ms: seq<Match>)
    requires UniqueIds(root, ms) && ms != []
    ensures ms[|ms| - 1].resource.id !in Ids(root, ms[..|ms| - 1])
  {
  }

  // ---------------------------------------------------------------------------------
  // Render

  /** The query Render rebuilds from a captured response. */
  function Rebuilt(r: Response): Query
    requires r.analysis.Some?
  {
    var a := r.analysis.value;
    Query(a.root.namespace, a.root.kind, a.root.name, r.scope.cluster, "", a.relation, a.maxDepth, a.limit)
  }

  /** It is the query that was asked, without the expected UID. */
  lemma RebuiltIsTheQuery(r: Response, q: Query)
    requires Valid(r, q)
    ensures Rebuilt(r) == q.(expectedUid := "")
  {
  }

  lemma UidOnlyRestricts(r: Response, q: Query)
    requires Valid(r, q)
    ensures Valid(r, q.(expectedUid := ""))
  {
    var p := q.(expectedUid := "");
    var a := r.analysis.value;
    FacetIgnoresUid(a.root.id, a.resources, a.counts, q);
    FacetIgnoresUid(a.root.id, PlainMatches(a.authorization.resources), a.authorization.counts, q);
    assert HeaderOk(r, p) && RootOk(a.root, p);
  }

  lemma FacetIgnoresUid(root: string, ms: seq<Match>, counts: Counts, q: Query)
    requires FacetOk(root, ms, counts, q)
    ensures FacetOk(root, ms, counts, q.(expectedUid := ""))
  {
  }

  /** Render accepts a response exactly when some query does, so it accepts all that Fetch accepted. */
  lemma RenderAcceptsWhatFetchAccepted(r: Response)
    requires r.analysis.Some?
    ensures Valid(r, Rebuilt(r)) <==> exists q :: Valid(r, q)
  {
    forall q | Valid(r, q) ensures Valid(r, Rebuilt(r)) {
      RebuiltIsTheQuery(r, q);
      UidOnlyRestricts(r, q);
    }
  }
}
