/** An accepted response is exactly an answer to the query: it repeats what was asked, all its evidence is of the asked
    cluster, and every resource it lists is at the end of a walk over listed resources. */
module ResponseLaws {
  import opened Options
  import opened ImpactQuery
  import opened ImpactResponse

  // ---------------------------------------------------------------------------------
  // Walks

  /** A step goes from one node to the next, over an edge between the two. */
  ghost predicate Leads(s: Step, here: string, there: string) {
    s.traversalFrom == here && s.traversalTo == there && {s.from, s.to} == {here, there}
  }

  ghost predicate LeadsAt(path: seq<Step>, nodes: seq<string>, k: nat)
    requires k < |path| && |nodes| == |path| + 1
  {
    Leads(path[k], nodes[k], nodes[k + 1])
  }

  /** The path leads along the nodes. */
  ghost predicate Walk(path: seq<Step>, nodes: seq<string>) {
    |nodes| == |path| + 1 && forall k: nat | k < |path| :: LeadsAt(path, nodes, k)
  }

  ghost predicate WalkTo(m: Match, root: string, ids: set<string>, nodes: seq<string>) {
    && Walk(m.path, nodes) && nodes[0] == root && nodes[|nodes| - 1] == m.resource.id
    && forall n | n in nodes :: n in ids
  }

  function Places(root: string, path: seq<Step>): seq<string> {
    [root] + seq(|path|, k requires 0 <= k < |path| => path[k].traversalTo)
  }

  lemma {:induction false} StepLeads(s: Step, here: string, ids: set<string>)
    requires StepOk(s, here, ids)
    ensures Leads(s, here, s.traversalTo)
  {
  }

  lemma {:induction false} PathWalks(path: seq<Step>, root: string, ids: set<string>)
    requires forall k: nat | k < |path| :: Continues(path, root, ids, k)
    ensures Walk(path, Places(root, path))
  {
    var nodes := Places(root, path);
    forall k: nat | k < |path| ensures LeadsAt(path, nodes, k) {
      assert Continues(path, root, ids, k);
      StepLeads(path[k], At(root, path, k), ids);
      assert nodes[k] == At(root, path, k) && nodes[k + 1] == path[k].traversalTo;
    }
  }

  lemma {:induction false} PathIsWalk(m: Match, root: string, ids: set<string>, maxDepth: int)
    requires Reached(m, root, ids, maxDepth) && root in ids
    ensures WalkTo(m, root, ids, Places(root, m.path)) && |m.path| == m.depth && 1 <= m.depth <= maxDepth
  {
    PathWalks(m.path, root, ids);
    var nodes := Places(root, m.path);
    forall n | n in nodes ensures n in ids {
      var k :| 0 <= k < |nodes| && nodes[k] == n;
      WalkStaysListed(m.path, m.depth, root, m.resource.id, ids, maxDepth, k);
    }
  }

  lemma {:induction false} WalkIsPath(m: Match, root: string, ids: set<string>, maxDepth: int, nodes: seq<string>)
    requires WalkTo(m, root, ids, nodes) && |m.path| == m.depth && 1 <= m.depth <= maxDepth
    ensures Reached(m, root, ids, maxDepth)
  {
    forall k: nat | k < |m.path| ensures Continues(m.path, root, ids, k) {
      assert nodes[k] in nodes && nodes[k + 1] in nodes && LeadsAt(m.path, nodes, k);
      StepBetween(m.path[k], nodes[k], nodes[k + 1], ids);
      if k > 0 { assert LeadsAt(m.path, nodes, k - 1); }
    }
    assert LeadsAt(m.path, nodes, |m.path| - 1);
  }

  lemma {:induction false} StepBetween(s: Step, here: string, there: string, ids: set<string>)
    requires Leads(s, here, there) && here in ids && there in ids
    ensures StepOk(s, here, ids)
  {
    assert s.from in {here, there} && s.to in {here, there} && here in {s.from, s.to} && there in {s.from, s.to};
  }

  // ---------------------------------------------------------------------------------
  // Facets

  ghost predicate Walks(m: Match, root: string, ids: set<string>, maxDepth: int) {
    |m.path| == m.depth && 1 <= m.depth <= maxDepth && exists nodes :: WalkTo(m, root, ids, nodes)
  }

  lemma {:induction false} ReachedIsWalked(m: Match, root: string, ids: set<string>, maxDepth: int)
    requires root in ids
    ensures Reached(m, root, ids, maxDepth) <==> Walks(m, root, ids, maxDepth)
  {
    if Reached(m, root, ids, maxDepth) { PathIsWalk(m, root, ids, maxDepth); }
    if Walks(m, root, ids, maxDepth) {
      var nodes :| WalkTo(m, root, ids, nodes);
      WalkIsPath(m, root, ids, maxDepth, nodes);
    }
  }

  /** The matches at depth one, and the others. */
  ghost function Direct(ms: seq<Match>): set<int> {
    set i | 0 <= i < |ms| && ms[i].depth == 1
  }

  ghost function Indirect(ms: seq<Match>): set<int> {
    set i | 0 <= i < |ms| && ms[i].depth != 1
  }

  lemma {:induction false} CountsAreSizes(ms: seq<Match>)
    ensures CountDirect(ms) == |Direct(ms)| && |ms| == |Direct(ms)| + |Indirect(ms)|
  {
    if ms == [] {
      assert Direct(ms) == {} && Indirect(ms) == {};
    } else {
      CountsAreSizes(ms[..|ms| - 1]);
      if ms[|ms| - 1].depth == 1 { OneMoreDirect(ms); } else { OneMoreIndirect(ms); }
    }
  }

  lemma {:induction false} OneMoreDirect(ms: seq<Match>)
    requires ms != [] && ms[|ms| - 1].depth == 1
    ensures |Direct(ms)| == |Direct(ms[..|ms| - 1])| + 1 && Indirect(ms) == Indirect(ms[..|ms| - 1])
  {
    assert Direct(ms) == Direct(ms[..|ms| - 1]) + {|ms| - 1};
  }

  lemma {:induction false} OneMoreIndirect(ms: seq<Match>)
    requires ms != [] && ms[|ms| - 1].depth != 1
    ensures |Indirect(ms)| == |Indirect(ms[..|ms| - 1])| + 1 && Direct(ms) == Direct(ms[..|ms| - 1])
  {
    assert Indirect(ms) == Indirect(ms[..|ms| - 1]) + {|ms| - 1};
  }

  /** The identity spells its own id, within the cluster, and a Secret shows nothing but its name. */
  ghost predicate Spelled(i: Identity, cluster: string) {
    && i.kind != "" && i.name != ""
    && i == Identity((if cluster == "" then "" else cluster + ":") + i.namespace + "/" + i.kind + "/" + i.name,
                     cluster, i.namespace, i.kind, i.name, i.uid, i.resourceVersion, i.referenceOnly)
    && (i.kind == "Secret" ==> i == Identity(i.id, cluster, i.namespace, "Secret", i.name, "", "", true))
  }

  lemma {:induction false} SpelledIsOk(i: Identity, cluster: string)
    ensures IdentityOk(i, cluster) <==> Spelled(i, cluster)
  {
    var id := i.namespace + "/" + i.kind + "/" + i.name;
    assert "" + i.namespace + "/" + i.kind + "/" + i.name == id;
    assert cluster + ":" + i.namespace + "/" + i.kind + "/" + i.name == cluster + ":" + id;
  }

  ghost predicate HonestFacet(root: string, ms: seq<Match>, counts: Counts, q: Query) {
    && |ms| <= q.limit && counts == Counts(|ms|, |Direct(ms)|, |Indirect(ms)|)
    && |Ids(root, ms)| == |ms| + 1
    && forall i | 0 <= i < |ms| ::
         Spelled(ms[i].resource, q.cluster) && Walks(ms[i], root, Ids(root, ms), q.maxDepth)
  }

  lemma {:induction false} AtMostOneMore(root: string, ms: seq<Match>)
    ensures |Ids(root, ms)| <= |ms| + 1
  {
    if ms == [] {
      assert Ids(root, ms) == {root};
    } else {
      var n := |ms| - 1;
      AtMostOneMore(root, ms[..n]);
      assert Ids(root, ms) == Ids(root, ms[..n]) + {ms[n].resource.id} by { SplitIds(root, ms); }
    }
  }

  lemma {:induction false} SplitIds(root: string, ms: seq<Match>)
    requires ms != []
    ensures Ids(root, ms) == Ids(root, ms[..|ms| - 1]) + {ms[|ms| - 1].resource.id}
  {
    var n := |ms| - 1;
    forall x ensures x in Ids(root, ms) <==> x in Ids(root, ms[..n]) + {ms[n].resource.id} {
      if x in Ids(root, ms[..n]) && x != root {
        var j :| 0 <= j < n && ms[..n][j].resource.id == x;
        assert ms[j].resource.id == x;
      }
      if x in Ids(root, ms) && x != root {
        var j :| 0 <= j < |ms| && ms[j].resource.id == x;
        if j < n { assert ms[..n][j].resource.id == x; }
      }
    }
  }

  lemma {:induction false} AllDifferent(root: string, ms: seq<Match>)
    requires |Ids(root, ms)| == |ms| + 1
    ensures UniqueIds(root, ms)
  {
    if ms != [] {
      var n := |ms| - 1;
      SplitIds(root, ms);
      AtMostOneMore(root, ms[..n]);
      assert ms[n].resource.id !in Ids(root, ms[..n]);
      AllDifferent(root, ms[..n]);
      NewId(root, ms, n);
      assert ms[..n + 1] == ms;
    }
  }

  lemma {:induction false} FacetIsHonest(root: string, ms: seq<Match>, counts: Counts, q: Query)
    ensures FacetOk(root, ms, counts, q) <==> HonestFacet(root, ms, counts, q)
  {
    CountsAreSizes(ms);
    if UniqueIds(root, ms) { ListedOnce(root, ms); }
    if |Ids(root, ms)| == |ms| + 1 { AllDifferent(root, ms); }
    forall i | 0 <= i < |ms|
      ensures IdentityOk(ms[i].resource, q.cluster) <==> Spelled(ms[i].resource, q.cluster)
      ensures Reached(ms[i], root, Ids(root, ms), q.maxDepth) <==> Walks(ms[i], root, Ids(root, ms), q.maxDepth)
    {
      SpelledIsOk(ms[i].resource, q.cluster);
      ReachedIsWalked(ms[i], root, Ids(root, ms), q.maxDepth);
    }
  }

  // ---------------------------------------------------------------------------------
  // Answers

  ghost function Named(o: Option<string>): set<string> {
    if o.Some? then {o.value} else {}
  }

  ghost function ClustersOf(s: Snapshot): set<string> {
    {s.cluster} + (set c | c in s.sources) + Named(s.inventory)
  }

  /** Every cluster named anywhere in the evidence. */
  ghost function Clusters(available: Availability, snapshots: seq<Snapshot>): set<string> {
    {available.cluster} + Named(available.retention) + set s, c | s in snapshots && c in ClustersOf(s) :: c
  }

  lemma {:induction false} SnapshotNames(s: Snapshot, cluster: string)
    ensures SnapshotOk(s, cluster) <==> ClustersOf(s) == {cluster}
  {
    if ClustersOf(s) == {cluster} {
      assert s.cluster in ClustersOf(s);
      forall i | 0 <= i < |s.sources| ensures s.sources[i] == cluster { assert s.sources[i] in ClustersOf(s); }
      if s.inventory.Some? { assert s.inventory.value in ClustersOf(s); }
    }
  }

  lemma {:induction false} EvidenceNames(a: Analysis, cluster: string)
    requires a.observation.Some? && a.availability.Some?
    ensures EvidenceOk(a, cluster) <==> Clusters(a.availability.value, a.observation.value) == {cluster}
  {
    var all := Clusters(a.availability.value, a.observation.value);
    forall i | 0 <= i < |a.observation.value| ensures SnapshotOk(a.observation.value[i], cluster)
                                                      <==> ClustersOf(a.observation.value[i]) == {cluster}
    {
      SnapshotNames(a.observation.value[i], cluster);
    }
    if all == {cluster} {
      assert a.availability.value.cluster in all;
      if a.availability.value.retention.Some? { assert a.availability.value.retention.value in all; }
      forall i | 0 <= i < |a.observation.value| ensures ClustersOf(a.observation.value[i]) == {cluster} {
        var s := a.observation.value[i];
        forall c | c in ClustersOf(s) ensures c == cluster { assert s in a.observation.value && c in all; }
        assert s.cluster in ClustersOf(s);
      }
    }
    if EvidenceOk(a, cluster) {
      assert forall s | s in a.observation.value :: ClustersOf(s) == {cluster};
    }
  }

  /** What the query fixes of a response. */
  ghost predicate Repeats(r: Response, q: Query) {
    && r == Response("1", r.version, true, true,
                     Scope(q.cluster, if q.cluster != "" then "federated" else "single",
                           "all_namespaces_in_selected_cluster"),
                     r.analysis)
    && r.version != "" && r.analysis.Some?
    && var a := r.analysis.value;
       && a.root == Identity(a.root.id, q.cluster, q.namespace, q.kind, q.name,
                             if q.expectedUid == "" then a.root.uid else q.expectedUid, a.root.resourceVersion,
                             a.root.referenceOnly)
       && (a.relation, a.maxDepth, a.limit) == (q.relation, q.maxDepth, q.limit)
       && (a.authorization.maxDepth, a.authorization.limit) == (q.maxDepth, q.limit)
  }

  ghost predicate Answers(r: Response, q: Query) {
    && Repeats(r, q)
    && var a := r.analysis.value;
       && Spelled(a.root, q.cluster)
       && a.observation.Some? && a.availability.Some?
       && Clusters(a.availability.value, a.observation.value) == {q.cluster}
       && HonestFacet(a.root.id, a.resources, a.counts, q)
       && HonestFacet(a.root.id, PlainMatches(a.authorization.resources), a.authorization.counts, q)
       && ReferencesListed(a)
  }

  ghost predicate ReferencesListed(a: Analysis) {
    forall e | e in a.references :: {e.from, e.to} <= Ids(a.root.id, a.resources)
  }

  lemma {:induction false} ReferencesAreListed(a: Analysis)
    ensures ReferencesListed(a) <==>
              forall i | 0 <= i < |a.references| :: a.references[i].from in Ids(a.root.id, a.resources)
                                                   && a.references[i].to in Ids(a.root.id, a.resources)
  {
  }

  lemma {:induction false} RepeatsIsOk(r: Response, q: Query)
    ensures Repeats(r, q) && Spelled(r.analysis.value.root, q.cluster) <==>
              && HeaderOk(r, q) && r.analysis.Some? && RootOk(r.analysis.value.root, q) && EchoOk(r.analysis.value, q)
              && IdentityOk(r.analysis.value.root, q.cluster)
  {
    if r.analysis.Some? { SpelledIsOk(r.analysis.value.root, q.cluster); }
  }

  /** The check accepts a response exactly when it answers the query. */
  lemma {:induction false} ValidExactlyAnswers(r: Response, q: Query)
    ensures Valid(r, q) <==> Answers(r, q)
  {
    RepeatsIsOk(r, q);
    if r.analysis.Some? {
      var a := r.analysis.value;
      if a.observation.Some? && a.availability.Some? { EvidenceNames(a, q.cluster); }
      ReferencesAreListed(a);
      FacetIsHonest(a.root.id, a.resources, a.counts, q);
      FacetIsHonest(a.root.id, PlainMatches(a.authorization.resources), a.authorization.counts, q);
    }
  }
}
