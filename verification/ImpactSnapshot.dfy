/** The projection builder: bounded copies of resources and edges of one cluster. */
module ImpactSnapshot {
  import opened Options
  import opened Json
  import opened Contexts
  import opened ImpactProjection

  datatype OwnerRef = OwnerRef(kind: Bytes, name: Bytes, uid: Bytes)

  datatype Resource = Resource(
    kind: Bytes, name: Bytes, namespace: Bytes, cluster: Bytes, groupVersion: Bytes, uid: Bytes,
    resourceVersion: Bytes, owners: seq<OwnerRef>, labels: map<Bytes, Bytes>, annotations: map<Bytes, Bytes>, raw: Any)

  datatype Edge = Edge(from: Bytes, to: Bytes, edgeType: Bytes, attributes: map<Bytes, Bytes>)

  const SLASH: Byte := 0x2F
  const COLON: Byte := 0x3A
  const Secret: Bytes := Ascii("Secret")
  const ReferenceOnly: Bytes := Ascii("kubeatlas.io/reference-only")

  // ---------------------------------------------------------------------------------
  // Identifiers and clusters

  /** Resource.ID */
  function Id(r: Resource): Bytes {
    var base := r.namespace + [SLASH] + r.kind + [SLASH] + r.name;
    if r.cluster == [] then base else r.cluster + [COLON] + base
  }

  /** The part of a string before the first `mark`, and whether there is one (strings.Cut). */
  function Before(s: Bytes, mark: Byte): (r: (Bytes, bool))
    ensures mark !in r.0 && r.0 <= s && (r.1 <==> mark in s)
    ensures r.1 ==> |r.0| < |s| && s[|r.0|] == mark
    ensures !r.1 ==> r.0 == s
  {
    if s == [] then ([], false)
    else if s[0] == mark then ([], true)
    else
      var t := Before(s[1..], mark);
      ([s[0]] + t.0, t.1)
  }

  lemma {:induction false} BeforeMark(a: Bytes, mark: Byte, b: Bytes)
    requires mark !in a
    ensures Before(a + [mark] + b, mark) == (a, true)
  {
    if a == [] {
      assert a + [mark] + b == [mark] + b;
    } else {
      assert (a + [mark] + b)[1..] == a[1..] + [mark] + b;
      assert (a + [mark] + b)[0] == a[0];
      BeforeMark(a[1..], mark, b);
      assert a == [a[0]] + a[1..];
    }
  }

  /** ImpactIDInCluster */
  predicate InCluster(id: Bytes, cluster: Bytes) {
    var head := Before(id, SLASH);
    if !head.1 then false
    else
      var prefix := Before(head.0, COLON);
      if prefix.1 then prefix.0 == cluster && prefix.0 != [] else cluster == []
  }

  /** Cluster names without slash and colon, and without a cluster no colon in the first segment. */
  predicate Unambiguous(r: Resource) {
    && SLASH !in r.cluster && COLON !in r.cluster
    && (r.cluster == [] ==> COLON !in Before(r.namespace, SLASH).0)
  }

  lemma HeadOfId(r: Resource)
    requires r.cluster == []
    ensures Before(Id(r), SLASH) == (Before(r.namespace, SLASH).0, true)
  {
    var h := Before(r.namespace, SLASH);
    if h.1 {
      var tail := r.namespace[|h.0| + 1..];
      assert r.namespace == h.0 + [SLASH] + tail;
      assert Id(r) == h.0 + [SLASH] + (tail + [SLASH] + r.kind + [SLASH] + r.name);
      BeforeMark(h.0, SLASH, tail + [SLASH] + r.kind + [SLASH] + r.name);
    } else {
      assert Id(r) == r.namespace + [SLASH] + (r.kind + [SLASH] + r.name);
      BeforeMark(r.namespace, SLASH, r.kind + [SLASH] + r.name);
    }
  }

  lemma ClusterPrefixOfId(r: Resource)
    requires r.cluster != [] && SLASH !in r.cluster && COLON !in r.cluster
    ensures Before(Id(r), SLASH).1 && Before(Before(Id(r), SLASH).0, COLON) == (r.cluster, true)
  {
    var h := Before(r.namespace, SLASH);
    var head := r.cluster + [COLON] + h.0;
    if h.1 {
      var tail := r.namespace[|h.0| + 1..];
      assert r.namespace == h.0 + [SLASH] + tail;
      assert Id(r) == head + [SLASH] + (tail + [SLASH] + r.kind + [SLASH] + r.name);
      BeforeMark(head, SLASH, tail + [SLASH] + r.kind + [SLASH] + r.name);
    } else {
      assert Id(r) == head + [SLASH] + (r.kind + [SLASH] + r.name);
      BeforeMark(head, SLASH, r.kind + [SLASH] + r.name);
    }
    BeforeMark(r.cluster, COLON, h.0);
  }

  /** The cluster test agrees with Resource.ID for every cluster exactly when the resource's own
      cluster and namespace are unambiguous. */
  lemma InClusterAgrees(r: Resource)
    ensures (forall c: Bytes :: InCluster(Id(r), c) <==> c == r.cluster) <==> Unambiguous(r)
  {
    if Unambiguous(r) {
      if r.cluster == [] { HeadOfId(r); } else { ClusterPrefixOfId(r); }
    } else {
      if r.cluster == [] { HeadOfId(r); }
      assert !InCluster(Id(r), r.cluster);
    }
  }

  /** The id is a first segment up to a slash and a rest; without a cluster that segment has no colon, else it starts
      with the cluster and a colon. */
  ghost predicate SplitsInto(id: Bytes, cluster: Bytes, head: Bytes, rest: Bytes) {
    && SLASH !in head && id == head + [SLASH] + rest
    && if cluster == [] then COLON !in head
       else COLON !in cluster && |cluster| < |head| && head[..|cluster|] == cluster && head[|cluster|] == COLON
  }

  lemma SplitIsInCluster(id: Bytes, cluster: Bytes, head: Bytes, rest: Bytes)
    requires SplitsInto(id, cluster, head, rest)
    ensures InCluster(id, cluster)
  {
    BeforeMark(head, SLASH, rest);
    if cluster != [] {
      assert head == cluster + [COLON] + head[|cluster| + 1..];
      BeforeMark(cluster, COLON, head[|cluster| + 1..]);
    }
  }

  /** The cluster test accepts exactly the ids that split so. */
  lemma InClusterExactly(id: Bytes, cluster: Bytes)
    ensures InCluster(id, cluster) <==> exists head, rest :: SplitsInto(id, cluster, head, rest)
  {
    if InCluster(id, cluster) {
      var head := Before(id, SLASH).0;
      var rest := id[|head| + 1..];
      assert id == head + [SLASH] + rest;
      assert SplitsInto(id, cluster, head, rest);
    }
    forall head, rest | SplitsInto(id, cluster, head, rest) ensures InCluster(id, cluster) {
      SplitIsInCluster(id, cluster, head, rest);
    }
  }

  // ---------------------------------------------------------------------------------
  // The allowlist

  function Named(name: string, shape: Shape): ShapeField {
    ShapeField(Ascii(name), shape)
  }

  function RefShape(): Shape {
    ObjectShape([Named("name", StringShape), Named("optional", BooleanShape)])
  }

  function ContainerShape(): Shape {
    ObjectShape([
      Named("envFrom", ArrayShape(ObjectShape([Named("configMapRef", RefShape()), Named("secretRef", RefShape())]))),
      Named("env", ArrayShape(ObjectShape([Named("valueFrom", ObjectShape([
        Named("configMapKeyRef", RefShape()), Named("secretKeyRef", RefShape())]))]))),
      Named("volumeMounts", ArrayShape(ObjectShape([
        Named("name", StringShape), Named("subPath", PresenceShape), Named("subPathExpr", PresenceShape)])))])
  }

  function PodSpecShape(): Shape {
    ObjectShape([
      Named("containers", ArrayShape(ContainerShape())),
      Named("initContainers", ArrayShape(ContainerShape())),
      Named("ephemeralContainers", ArrayShape(ContainerShape())),
      Named("volumes", ArrayShape(ObjectShape([
        Named("name", StringShape), Named("configMap", RefShape()),
        Named("secret", ObjectShape([Named("secretName", StringShape), Named("optional", BooleanShape)])),
        Named("persistentVolumeClaim", ObjectShape([Named("claimName", StringShape)])),
        Named("projected", ObjectShape([Named("sources", ArrayShape(ObjectShape([
          Named("configMap", RefShape()), Named("secret", RefShape())])))]))])))])
  }

  function MetadataShape(): Shape {
    ObjectShape([
      Named("name", StringShape), Named("namespace", StringShape), Named("uid", StringShape),
      Named("resourceVersion", StringShape)])
  }

  /** The pod spec below a path of object fields. */
  function Below(path: seq<string>): Shape
    decreases |path|
  {
    if path == [] then PodSpecShape() else ObjectShape([Named(path[0], Below(path[1..]))])
  }

  /** ImpactPodSpecPath: the known built-in kinds only. */
  function PodSpecPath(kind: Bytes, groupVersion: Bytes): seq<string> {
    if kind == Ascii("Pod") && groupVersion == Ascii("v1") then ["spec"]
    else if (kind in [Ascii("Deployment"), Ascii("ReplicaSet"), Ascii("StatefulSet"), Ascii("DaemonSet")]
        && groupVersion == Ascii("apps/v1"))
            || (kind == Ascii("Job") && groupVersion == Ascii("batch/v1")) then ["spec", "template", "spec"]
    else if kind == Ascii("CronJob") && groupVersion == Ascii("batch/v1")
        then ["spec", "jobTemplate", "spec", "template", "spec"]
    else []
  }

  /** ImpactReferenceShape */
  function ReferenceShape(kind: Bytes, groupVersion: Bytes): Option<Shape> {
    var path := PodSpecPath(kind, groupVersion);
    if path == [] then None
    else Some(ObjectShape([
      Named("kind", StringShape), Named("apiVersion", StringShape),
      Named("metadata", MetadataShape()),
      Named(path[0], Below(path[1..]))]))
  }

  // ---------------------------------------------------------------------------------
  // Copies and their sizes

  /** SanitizeResource: a Secret is reduced to a reference. */
  function Sanitized(r: Resource): Resource {
    if r.kind != Secret then r
    else Resource(Secret, r.name, r.namespace, r.cluster, [], [], [], [], map[],
                  map[ReferenceOnly := Ascii("true")], Nil)
  }

  /** The reference fields kept of a payload: nothing for unknown kinds or incomplete identities. */
  ghost function References(r: Resource): Any {
    var shape := ReferenceShape(r.kind, r.groupVersion);
    if shape.None? || !r.raw.Object? || r.uid == [] || r.resourceVersion == [] then Nil
    else
      var p := Projected(shape.value, r.raw);
      if p.Object? && p.entries != map[] then p else Nil
  }

  function ReferencesCost(r: Resource): nat {
    var shape := ReferenceShape(r.kind, r.groupVersion);
    if shape.None? || !r.raw.Object? || r.uid == [] || r.resourceVersion == [] then 0 else Cost(shape.value, r.raw)
  }

  /** What AddResource appends for a resource of the selected cluster. */
  ghost function Copied(resource: Resource): Resource {
    var r := Sanitized(resource);
    Sanitized(Resource(r.kind, r.name, r.namespace, r.cluster, r.groupVersion, r.uid, r.resourceVersion, r.owners,
                       map[], map[], References(r)))
  }

  /** Resources that agree in what the projection looks at: for a Secret its name alone, otherwise the identity,
      the owners and, where references are kept, the payload as far as the allowlist looks. Labels and
      annotations do not matter. */
  ghost predicate AlikeResources(r: Resource, q: Resource) {
    && r.kind == q.kind && r.name == q.name && r.namespace == q.namespace && r.cluster == q.cluster
    && (r.kind == Secret ||
        (&& r.groupVersion == q.groupVersion && r.uid == q.uid && r.resourceVersion == q.resourceVersion
         && r.owners == q.owners
         && var shape := ReferenceShape(r.kind, r.groupVersion);
            shape.Some? && r.uid != [] && r.resourceVersion != [] ==> Alike(shape.value, r.raw, q.raw)))
  }

  /** Nothing but that passes into the copy. */
  lemma AlikeGiveOneCopy(r: Resource, q: Resource)
    requires AlikeResources(r, q)
    ensures Copied(r) == Copied(q)
  {
    if r.kind != Secret {
      var shape := ReferenceShape(r.kind, r.groupVersion);
      if shape.Some? && r.uid != [] && r.resourceVersion != [] {
        ProjectionSeesExactlyTheShape(shape.value, r.raw, q.raw);
        assert r.raw.Object? <==> q.raw.Object?;
      }
    }
  }

  function OwnersCost(owners: seq<OwnerRef>): nat {
    if owners == [] then 0
    else
      var o := owners[|owners| - 1];
      OwnersCost(owners[..|owners| - 1]) + 64 + 6 * (|o.kind| + |o.name| + |o.uid|)
  }

  function ScalarsCost(r: Resource): nat {
    512 + 6 * (|r.kind| + |r.name| + |r.namespace| + |r.cluster| + |r.groupVersion| + |r.uid| + |r.resourceVersion|)
  }

  function ResourceCost(resource: Resource): nat {
    var r := Sanitized(resource);
    ScalarsCost(r) + OwnersCost(r.owners) + ReferencesCost(r)
  }

  function EdgeCost(e: Edge): nat {
    96 + 6 * (|e.from| + |e.to| + |e.edgeType|)
  }

  /** A struct member with its quoted key, its colon and the comma or brace after it. */
  function MemberSize(key: string, size: nat): nat {
    |key| + 4 + size
  }

  function OptionalText(key: string, s: Bytes): nat {
    if s == [] then 0 else MemberSize(key, |StringText(s)|)
  }

  ghost function OptionalMap(key: string, m: map<Bytes, Bytes>): nat {
    if m == map[] then 0 else MemberSize(key, JsonSize(Object(map k | k in m :: Text(m[k]))))
  }

  function OwnerSize(o: OwnerRef): nat {
    1 + MemberSize("kind", |StringText(o.kind)|) + MemberSize("name", |StringText(o.name)|)
        + MemberSize("uid", |StringText(o.uid)|)
  }

  function OwnersSize(owners: seq<OwnerRef>): nat {
    if owners == [] then 0 else OwnersSize(owners[..|owners| - 1]) + OwnerSize(owners[|owners| - 1])
  }

  function ScalarsSize(r: Resource): nat {
    1 + MemberSize("kind", |StringText(r.kind)|) + MemberSize("name", |StringText(r.name)|)
    + MemberSize("namespace", |StringText(r.namespace)|)
    + OptionalText("groupVersion", r.groupVersion) + OptionalText("uid", r.uid)
    + OptionalText("resourceVersion", r.resourceVersion) + OptionalText("clusterId", r.cluster)
  }

  function OwnersMember(owners: seq<OwnerRef>): nat {
    if owners == [] then 0 else MemberSize("ownerReferences", 2 + OwnersSize(owners) + Separators(|owners|))
  }

  ghost function PayloadSize(raw: Any): nat {
    if raw == Nil then 0 else JsonSize(raw)
  }

  /** The JSON size of a resource, and of the payload that is carried beside it. */
  ghost function ResourceSize(r: Resource): nat {
    ScalarsSize(r) + OwnersMember(r.owners) + OptionalMap("labels", r.labels)
        + OptionalMap("annotations", r.annotations)
    + PayloadSize(r.raw)
  }

  ghost function EdgeSize(e: Edge): nat {
    1 + MemberSize("from", |StringText(e.from)|) + MemberSize("to", |StringText(e.to)|)
    + MemberSize("type", |StringText(e.edgeType)|) + OptionalMap("attributes", e.attributes)
  }

  lemma {:induction false} OwnersCovered(owners: seq<OwnerRef>)
    ensures OwnersSize(owners) + |owners| <= OwnersCost(owners)
  {
    if owners != [] { OwnersCovered(owners[..|owners| - 1]); }
  }

  lemma ReferencesCovered(r: Resource)
    ensures PayloadSize(References(r)) <= ReferencesCost(r)
  {
    var shape := ReferenceShape(r.kind, r.groupVersion);
    if shape.Some? { ChargeCovers(shape.value, r.raw); }
  }

  lemma MarkerSize()
    ensures OptionalMap("annotations", map[ReferenceOnly := Ascii("true")]) <= 220
  {
    var m := map[ReferenceOnly := Ascii("true")];
    var a := Object(map k | k in m :: Text(m[k]));
    assert a.entries.Keys == {ReferenceOnly};
    EntriesSplit(a, a.entries.Keys, ReferenceOnly);
    assert a.entries.Keys - {ReferenceOnly} == {};
    assert |a.entries| == |a.entries.Keys| == 1;
  }

  lemma ScalarsCovered(r: Resource)
    ensures ScalarsSize(r) + 250 <= ScalarsCost(r)
  {
  }

  lemma SecretCovered(r: Resource)
    requires r.kind == Secret
    ensures ResourceSize(Copied(r)) + 1 <= ResourceCost(r)
  {
    var s := Sanitized(r);
    assert Sanitized(Copied(r)) == s == Copied(r);
    ScalarsCovered(s);
    MarkerSize();
    assert OptionalMap("labels", s.labels) == 0 && PayloadSize(s.raw) == 0 && OwnersMember(s.owners) == 0;
  }

  /** The charge for a resource covers its copy, and one separator. */
  lemma ResourceCovered(r: Resource)
    ensures ResourceSize(Copied(r)) + 1 <= ResourceCost(r)
  {
    if r.kind == Secret {
      SecretCovered(r);
    } else {
      var c := Copied(r);
      assert c.labels == map[] && c.annotations == map[] && c.owners == r.owners && c.raw == References(r);
      assert ScalarsSize(c) == ScalarsSize(r) && Sanitized(r) == r;
      ScalarsCovered(r);
      OwnersCovered(r.owners);
      ReferencesCovered(r);
    }
  }

  lemma EdgeCovered(e: Edge)
    requires e.attributes == map[]
    ensures EdgeSize(e) + 1 <= EdgeCost(e)
  {
  }

  // ---------------------------------------------------------------------------------
  // The builder

  datatype Verdict = Ok | Limit | Cancelled

  datatype Settings = Settings(cluster: Bytes, maxResources: int, maxEdges: int, maxBytes: int)

  function OrDefault(n: int, fallback: int): int {
    if n == 0 then fallback else n
  }

  /** Normalize: zero selects the default, everything out of range is refused. */
  function Normalized(o: Settings): (r: Option<Settings>)
    ensures r.Some? <==>
              && SLASH !in o.cluster && COLON !in o.cluster
              && 0 <= o.maxResources <= 100_000 && 0 <= o.maxEdges <= 500_000 && 0 <= o.maxBytes <= 0x400_0000
    ensures r.Some? ==>
              && r.value.cluster == o.cluster
              && (if o.maxResources > 0 then r.value.maxResources == o.maxResources else r.value.maxResources == 20_000)
              && (if o.maxEdges > 0 then r.value.maxEdges == o.maxEdges else r.value.maxEdges == 100_000)
              && (if o.maxBytes > 0 then r.value.maxBytes == o.maxBytes else r.value.maxBytes == 0x100_0000)
  {
    var n := Settings(o.cluster, OrDefault(o.maxResources, 20_000), OrDefault(o.maxEdges, 100_000),
        OrDefault(o.maxBytes, 0x100_0000));
    if SLASH in n.cluster || COLON in n.cluster || n.maxResources < 1 || n.maxResources > 100_000
       || n.maxEdges < 1 || n.maxEdges > 500_000 || n.maxBytes < 1 || n.maxBytes > 0x400_0000 then None
    else Some(n)
  }

  ghost function ResourcesSize(rs: seq<Resource>): nat {
    if rs == [] then 0 else ResourcesSize(rs[..|rs| - 1]) + ResourceSize(rs[|rs| - 1]) + 1
  }

  ghost function EdgesSize(es: seq<Edge>): nat {
    if es == [] then 0 else EdgesSize(es[..|es| - 1]) + EdgeSize(es[|es| - 1]) + 1
  }

  function TextsCost(fields: seq<Bytes>): nat {
    if fields == [] then 0 else TextsCost(fields[..|fields| - 1]) + 6 * |fields[|fields| - 1]|
  }

  lemma {:induction false} TextsCostPrefix(fields: seq<Bytes>, i: nat)
    requires i <= |fields|
    ensures TextsCost(fields[..i]) <= TextsCost(fields)
    decreases |fields|
  {
    if i < |fields| {
      TextsCostPrefix(fields[..|fields| - 1], i);
      assert fields[..|fields| - 1][..i] == fields[..i];
    } else {
      assert fields[..i] == fields;
    }
  }

  lemma {:induction false} FieldsCostPrefix(fields: seq<ShapeField>, entries: map<Bytes, Any>, i: nat)
    requires i <= |fields|
    ensures FieldsCost(fields[..i], entries) <= FieldsCost(fields, entries)
    decreases |fields|
  {
    if i < |fields| {
      FieldsCostPrefix(fields[..|fields| - 1], entries, i);
      assert fields[..|fields| - 1][..i] == fields[..i];
    } else {
      assert fields[..i] == fields;
    }
  }

  lemma {:induction false} ItemsCostPrefix(element: Shape, items: seq<Any>, i: nat)
    requires i <= |items|
    ensures ItemsCost(element, items[..i]) <= ItemsCost(element, items)
    decreases |items|
  {
    if i < |items| {
      ItemsCostPrefix(element, items[..|items| - 1], i);
      assert items[..|items| - 1][..i] == items[..i];
    } else {
      assert items[..i] == items;
    }
  }

  lemma ItemsStep(element: Shape, items: seq<Any>, i: nat)
    requires i < |items|
    ensures ItemsCost(element, items[..i + 1]) == ItemsCost(element, items[..i]) + Cost(element, items[i])
    ensures ItemsCost(element, items[..i + 1]) <= ItemsCost(element, items)
    ensures ProjectedItems(element, items[..i + 1])
              == ProjectedItems(element, items[..i]) + [Projected(element, items[i])]
  {
    assert items[..i + 1] == items[..i] + [items[i]];
    assert items[..i + 1][..i] == items[..i];
    ItemsSnoc(element, items[..i], items[i]);
    ItemsCostPrefix(element, items, i + 1);
  }

  lemma {:induction false} OwnersCostPrefix(owners: seq<OwnerRef>, i: nat)
    requires i <= |owners|
    ensures OwnersCost(owners[..i]) <= OwnersCost(owners)
    decreases |owners|
  {
    if i < |owners| {
      OwnersCostPrefix(owners[..|owners| - 1], i);
      assert owners[..|owners| - 1][..i] == owners[..i];
    } else {
      assert owners[..i] == owners;
    }
  }

  ghost predicate Held(resources: seq<Resource>, edges: seq<Edge>, remaining: int, options: Settings) {
    && 0 <= remaining <= options.maxBytes
    && ResourcesSize(resources) + EdgesSize(edges) <= options.maxBytes - remaining
    && |resources| <= options.maxResources && |edges| <= options.maxEdges
    && (forall i | 0 <= i < |resources| :: resources[i].cluster == options.cluster)
    && (forall i | 0 <= i < |edges| :: Within(edges[i], options.cluster))
  }

  predicate Within(e: Edge, cluster: Bytes) {
    InCluster(e.from, cluster) && InCluster(e.to, cluster)
  }

  lemma HeldWithLess(resources: seq<Resource>, edges: seq<Edge>, before: int, after: int, options: Settings)
    requires Held(resources, edges, before, options) && 0 <= after <= before
    ensures Held(resources, edges, after, options)
  {
  }

  lemma HeldPlusResource(resources: seq<Resource>, edges: seq<Edge>, before: int, options: Settings, copied: Resource,
                         cost: nat)
    requires Held(resources, edges, before, options)
    requires |resources| < options.maxResources && copied.cluster == options.cluster
    requires ResourceSize(copied) + 1 <= cost <= before
    ensures Held(resources + [copied], edges, before - cost, options)
  {
    var longer := resources + [copied];
    assert longer[..|resources|] == resources;
    assert ResourcesSize(longer) == ResourcesSize(resources) + ResourceSize(copied) + 1;
  }

  lemma CopiedStaysSelected(resource: Resource)
    ensures Copied(resource).cluster == resource.cluster
  {
  }

  lemma {:induction false} HeldPlusEdge(resources: seq<Resource>, edges: seq<Edge>, before: int, options: Settings,
                                        e: Edge)
    requires Held(resources, edges, before, options)
    requires |edges| < options.maxEdges && EdgeCost(e) <= before
    requires InCluster(e.from, options.cluster) && InCluster(e.to, options.cluster)
    ensures Held(resources, edges + [Edge(e.from, e.to, e.edgeType, map[])], before - EdgeCost(e), options)
  {
    var copied := Edge(e.from, e.to, e.edgeType, map[]);
    EdgeCovered(copied);
    HeldPlusCopy(resources, edges, before, options, copied, EdgeCost(e));
  }

  lemma {:induction false} HeldPlusCopy(resources: seq<Resource>, edges: seq<Edge>, before: int, options: Settings,
                                        copied: Edge, cost: nat)
    requires Held(resources, edges, before, options) && |edges| < options.maxEdges
    requires EdgeSize(copied) + 1 <= cost <= before && Within(copied, options.cluster)
    ensures Held(resources, edges + [copied], before - cost, options)
  {
    EdgesSizeSnoc(edges, copied);
  }

  lemma EdgesSizeSnoc(edges: seq<Edge>, e: Edge)
    ensures EdgesSize(edges + [e]) == EdgesSize(edges) + EdgeSize(e) + 1
  {
    assert (edges + [e])[..|edges|] == edges;
  }

  class ImpactProjectionBuilder {
    var resources: seq<Resource>
    var edges: seq<Edge>
    var remaining: int
    const options: Settings

    /** Everything copied fits into what was charged, and belongs to the selected cluster. */
    ghost predicate Valid()
      reads this
    {
      Held(resources, edges, remaining, options)
    }

    /** NewImpactProjectionBuilder: no builder for options that Normalize refuses, the normalized ones otherwise. */
    static method New(options: Settings) returns (b: ImpactProjectionBuilder?)
      ensures b != null <==> Normalized(options).Some?
      ensures b != null ==>
                && fresh(b) && b.Valid() && b.resources == [] && b.edges == []
                && b.options == Normalized(options).value && b.remaining == b.options.maxBytes
    {
      var normalized := Normalized(options);
      if normalized.None? { return null; }
      b := new ImpactProjectionBuilder(normalized.value);
    }

    constructor (options: Settings)
      requires 0 <= options.maxResources && 0 <= options.maxEdges && 0 <= options.maxBytes
      ensures Valid() && resources == [] && edges == [] && remaining == options.maxBytes && this.options == options
    {
      this.options, remaining := options, options.maxBytes;
      resources, edges := [], [];
    }

    /** charge: the overhead, and six bytes for each byte of text. Division keeps the test free of overflow. */
    method Charge(overhead: nat, fields: seq<Bytes>) returns (ok: bool)
      requires remaining >= 0
      modifies this`remaining
      ensures ok == (overhead + TextsCost(fields) <= old(remaining))
      ensures ok ==> remaining == old(remaining) - overhead - TextsCost(fields)
      ensures 0 <= remaining <= old(remaining)
    {
      if overhead > remaining { return false; }
      remaining := remaining - overhead;
      ghost var start := remaining;
      var i := 0;
      while i < |fields|
        invariant 0 <= i <= |fields|
        invariant 0 <= remaining == start - TextsCost(fields[..i])
      {
        assert fields[..i + 1][..i] == fields[..i];
        TextsCostPrefix(fields, i + 1);
        if |fields[i]| > remaining / 6 { return false; }
        remaining := remaining - |fields[i]| * 6;
        i := i + 1;
      }
      assert fields[..i] == fields;
      return true;
    }

    /** projectImpactValue */
    method ProjectValue(ctx: Context, shape: Shape, value: Any) returns (r: Verdict, out: Any)
      requires remaining >= 0
      modifies ctx, this`remaining
      ensures 0 <= remaining <= old(remaining)
      ensures r == Ok ==> out == Projected(shape, value) && remaining == old(remaining) - Cost(shape, value)
      ensures r == Limit ==> Cost(shape, value) > old(remaining)
      ensures r == Cancelled ==> ctx.deadline.Some?
      decreases shape, 1
    {
      out := Nil;
      var cancelled := ctx.Err();
      if cancelled { return Cancelled, Nil; }
      var ok := Charge(32, []);
      if !ok { return Limit, Nil; }
      r := Ok;
      match shape
      case StringShape =>
        if !value.Text? { return; }
        ok := ChargeOne(0, value.bytes);
        if !ok { return Limit, Nil; }
        out := value;
      case PresenceShape =>
        if !value.Text? { return; }
        if value.bytes == [] { return Ok, Text([]); }
        ok := ChargeOne(0, Present);
        if !ok { return Limit, Nil; }
        out := Text(Present);
      case BooleanShape =>
        if value.Flag? { out := value; }
      case ObjectShape(fields) =>
        if !value.Object? { return; }
        var entries;
        r, entries := ProjectFields(ctx, fields, value.entries);
        if r != Ok { return r, Nil; }
        out := Object(entries);
      case ArrayShape(element) =>
        if !value.Array? { return; }
        var items;
        r, items := ProjectItems(ctx, element, value.items);
        if r != Ok { return r, Nil; }
        out := Array(items);
    }

    method ChargeOne(overhead: nat, text: Bytes) returns (ok: bool)
      requires remaining >= 0
      modifies this`remaining
      ensures ok == (overhead + 6 * |text| <= old(remaining))
      ensures ok ==> remaining == old(remaining) - overhead - 6 * |text|
      ensures 0 <= remaining <= old(remaining)
    {
      assert [text][..0] == [];
      assert TextsCost([text]) == TextsCost([]) + 6 * |text|;
      ok := Charge(overhead, [text]);
    }

    method ProjectFields(ctx: Context, fields: seq<ShapeField>, entries: map<Bytes, Any>)
      returns (r: Verdict, out: map<Bytes, Any>)
      requires remaining >= 0
      modifies ctx, this`remaining
      ensures 0 <= remaining <= old(remaining)
      ensures r == Ok ==>
                out == ProjectedEntries(fields, entries) && remaining == old(remaining) - FieldsCost(fields, entries)
      ensures r == Limit ==> FieldsCost(fields, entries) > old(remaining)
      ensures r == Cancelled ==> ctx.deadline.Some?
      decreases fields, 0
    {
      ghost var start := remaining;
      out := map[];
      var i := 0;
      while i < |fields|
        invariant 0 <= i <= |fields|
        invariant 0 <= remaining == start - FieldsCost(fields[..i], entries)
        invariant out == ProjectedEntries(fields[..i], entries)
      {
        var field := fields[i];
        assert fields[..i + 1][..i] == fields[..i];
        EntriesSnoc(fields[..i + 1], entries);
        FieldsCostPrefix(fields, entries, i + 1);
        if field.name in entries {
          var ok := ChargeOne(8, field.name);
          if !ok { return Limit, out; }
          var projected;
          r, projected := ProjectValue(ctx, field.shape, entries[field.name]);
          if r != Ok { return; }
          out := out[field.name := projected];
        }
        i := i + 1;
      }
      assert fields[..i] == fields;
      r := Ok;
    }

    method ProjectItems(ctx: Context, element: Shape, items: seq<Any>) returns (r: Verdict, out: seq<Any>)
      requires remaining >= 0
      modifies ctx, this`remaining
      ensures 0 <= remaining <= old(remaining)
      ensures r == Ok ==>
                out == ProjectedItems(element, items) && remaining == old(remaining) - ItemsCost(element, items)
      ensures r == Limit ==> ItemsCost(element, items) > old(remaining)
      ensures r == Cancelled ==> ctx.deadline.Some?
      decreases element, 2
    {
      ghost var start := remaining;
      out := [];
      var i := 0;
      while i < |items|
        invariant 0 <= i <= |items|
        invariant 0 <= remaining == start - ItemsCost(element, items[..i])
        invariant out == ProjectedItems(element, items[..i])
      {
        ItemsStep(element, items, i);
        var projected;
        r, projected := ProjectValue(ctx, element, items[i]);
        if r != Ok { return; }
        out := out + [projected];
        i := i + 1;
      }
      assert items[..i] == items;
      r := Ok;
    }

    /** projectReferenceFields */
    method ProjectReferences(ctx: Context, resource: Resource) returns (r: Verdict, out: Any)
      requires remaining >= 0
      modifies ctx, this`remaining
      ensures 0 <= remaining <= old(remaining)
      ensures r == Ok ==> out == References(resource) && remaining == old(remaining) - ReferencesCost(resource)
      ensures r == Limit ==> ReferencesCost(resource) > old(remaining)
      ensures r == Cancelled ==> ctx.deadline.Some?
    {
      var shape := ReferenceShape(resource.kind, resource.groupVersion);
      if shape.None? || !resource.raw.Object? || resource.uid == [] || resource.resourceVersion == [] {
        return Ok, Nil;
      }
      r, out := ProjectValue(ctx, shape.value, resource.raw);
      if r != Ok { return r, Nil; }
      if !out.Object? || out.entries == map[] { out := Nil; }
    }

    method ChargeOwners(ctx: Context, owners: seq<OwnerRef>) returns (r: Verdict)
      requires remaining >= 0
      modifies ctx, this`remaining
      ensures 0 <= remaining <= old(remaining)
      ensures r == Ok ==> remaining == old(remaining) - OwnersCost(owners)
      ensures r == Limit ==> OwnersCost(owners) > old(remaining)
      ensures r == Cancelled ==> ctx.deadline.Some?
    {
      ghost var start := remaining;
      var i := 0;
      while i < |owners|
        invariant 0 <= i <= |owners|
        invariant 0 <= remaining == start - OwnersCost(owners[..i])
      {
        assert owners[..i + 1][..i] == owners[..i];
        OwnersCostPrefix(owners, i + 1);
        var cancelled := ctx.Err();
        if cancelled { return Cancelled; }
        var o := owners[i];
        ThreeTexts(o.kind, o.name, o.uid);
        var ok := Charge(64, [o.kind, o.name, o.uid]);
        if !ok { return Limit; }
        i := i + 1;
      }
      assert owners[..i] == owners;
      r := Ok;
    }

    /** The charges and the copy of AddResource. */
    method CopyResource(ctx: Context, resource: Resource) returns (r: Verdict, copied: Resource)
      requires remaining >= 0
      modifies ctx, this`remaining
      ensures 0 <= remaining <= old(remaining)
      ensures r == Ok ==> copied == Copied(resource) && remaining == old(remaining) - ResourceCost(resource)
      ensures r == Limit ==> ResourceCost(resource) > old(remaining)
      ensures r == Cancelled ==> ctx.deadline.Some?
    {
      var s := Sanitized(resource);
      copied := s;
      SevenTexts(s);
      var ok := Charge(512, [s.kind, s.name, s.namespace, s.cluster, s.groupVersion, s.uid, s.resourceVersion]);
      if !ok { return Limit, copied; }
      r := ChargeOwners(ctx, s.owners);
      if r != Ok { return; }
      var raw;
      r, raw := ProjectReferences(ctx, s);
      if r != Ok { return; }
      copied := Sanitized(Resource(s.kind, s.name, s.namespace, s.cluster, s.groupVersion, s.uid, s.resourceVersion,
          s.owners,
                                   map[], map[], raw));
    }

    method AppendCopy(copied: Resource, ghost before: int, ghost cost: nat)
      requires Held(resources, edges, before, options) && |resources| < options.maxResources
                 && copied.cluster == options.cluster
      requires ResourceSize(copied) + 1 <= cost <= before && remaining == before - cost
      modifies this`resources
      ensures Valid() && resources == old(resources) + [copied]
    {
      HeldPlusResource(resources, edges, before, options, copied, cost);
      resources := resources + [copied];
    }

    method AddSelected(ctx: Context, resource: Resource) returns (r: Verdict)
      requires Valid() && resource.cluster == options.cluster && |resources| < options.maxResources
      modifies ctx, this`remaining, this`resources
      ensures Valid()
      ensures r == Ok ==>
                resources == old(resources) + [Copied(resource)] && remaining == old(remaining) - ResourceCost(resource)
      ensures r != Ok ==> resources == old(resources)
      ensures r == Limit ==> ResourceCost(resource) > old(remaining)
      ensures r == Cancelled ==> ctx.deadline.Some?
    {
      var copied;
      r, copied := CopyResource(ctx, resource);
      if r == Ok {
        ResourceCovered(resource);
        CopiedStaysSelected(resource);
        AppendCopy(copied, old(remaining), ResourceCost(resource));
      } else {
        HeldWithLess(resources, edges, old(remaining), remaining, options);
      }
    }

    /** AddResource: a resource of another cluster is skipped, a full graph or budget refuses. */
    method AddResource(ctx: Context, resource: Resource) returns (r: Verdict)
      requires Valid()
      modifies ctx, this`remaining, this`resources
      ensures Valid()
      ensures r == Ok && resource.cluster != options.cluster ==>
                resources == old(resources) && remaining == old(remaining)
      ensures r == Ok && resource.cluster == options.cluster ==>
                resources == old(resources) + [Copied(resource)] && remaining == old(remaining) - ResourceCost(resource)
      ensures r == Ok && resource.cluster == options.cluster ==>
                forall q | AlikeResources(resource, q) :: resources == old(resources) + [Copied(q)]
      ensures r != Ok ==> resources == old(resources)
      ensures r == Limit ==> |old(resources)| == options.maxResources || ResourceCost(resource) > old(remaining)
      ensures r == Cancelled ==> ctx.deadline.Some?
    {
      var cancelled := ctx.Err();
      if cancelled { return Cancelled; }
      if resource.cluster != options.cluster { return Ok; }
      if |resources| == options.maxResources { return Limit; }
      forall q | AlikeResources(resource, q) ensures Copied(resource) == Copied(q) { AlikeGiveOneCopy(resource, q); }
      r := AddSelected(ctx, resource);
    }

    method ChargeEdge(e: Edge) returns (ok: bool)
      requires remaining >= 0
      modifies this`remaining
      ensures ok == (EdgeCost(e) <= old(remaining)) && 0 <= remaining <= old(remaining)
      ensures ok ==> remaining == old(remaining) - EdgeCost(e)
    {
      ThreeTexts(e.from, e.to, e.edgeType);
      ok := Charge(96, [e.from, e.to, e.edgeType]);
    }

    method CopyEdge(e: Edge) returns (r: Verdict)
      requires Valid() && InCluster(e.from, options.cluster) && InCluster(e.to, options.cluster)
                 && |edges| < options.maxEdges
      modifies this`remaining, this`edges
      ensures Valid()
      ensures r == Ok ==>
                edges == old(edges) + [Edge(e.from, e.to, e.edgeType, map[])]
                && remaining == old(remaining) - EdgeCost(e)
      ensures r == Limit ==> edges == old(edges) && EdgeCost(e) > old(remaining)
      ensures r != Cancelled
    {
      var ok := ChargeEdge(e);
      if ok {
        HeldPlusEdge(resources, edges, old(remaining), options, e);
        edges := edges + [Edge(e.from, e.to, e.edgeType, map[])];
        assert Held(resources, edges, remaining, options);
        r := Ok;
      } else {
        HeldWithLess(resources, edges, old(remaining), remaining, options);
        r := Limit;
      }
    }

    /** AddEdge: only edges with both ends in the selected cluster, without their attributes. */
    method AddEdge(ctx: Context, e: Edge) returns (r: Verdict)
      requires Valid()
      modifies ctx, this`remaining, this`edges
      ensures Valid()
      ensures r == Ok ==> edges == if InCluster(e.from, options.cluster) && InCluster(e.to, options.cluster)
                                   then old(edges) + [Edge(e.from, e.to, e.edgeType, map[])] else old(edges)
      ensures r != Ok ==> edges == old(edges)
      ensures r == Limit ==> |old(edges)| == options.maxEdges || EdgeCost(e) > old(remaining)
      ensures r == Cancelled ==> ctx.deadline.Some?
    {
      var cancelled := ctx.Err();
      if cancelled { return Cancelled; }
      if !InCluster(e.from, options.cluster) || !InCluster(e.to, options.cluster) { return Ok; }
      if |edges| == options.maxEdges { return Limit; }
      r := CopyEdge(e);
    }
  }

  lemma ThreeTexts(a: Bytes, b: Bytes, c: Bytes)
    ensures TextsCost([a, b, c]) == 6 * (|a| + |b| + |c|)
  {
    assert [a, b, c][..2] == [a, b] && [a, b][..1] == [a] && [a][..0] == [];
    assert TextsCost([a]) == 6 * |a|;
    assert TextsCost([a, b]) == TextsCost([a]) + 6 * |b|;
  }

  lemma SevenTexts(r: Resource)
    ensures 512 + TextsCost([r.kind, r.name, r.namespace, r.cluster, r.groupVersion, r.uid, r.resourceVersion])
              == ScalarsCost(r)
  {
    ThreeTexts(r.kind, r.name, r.namespace);
    var t3 := [r.kind, r.name, r.namespace];
    var t4 := t3 + [r.cluster];
    var t5 := t4 + [r.groupVersion];
    var t6 := t5 + [r.uid];
    var t7 := t6 + [r.resourceVersion];
    assert t7[..6] == t6 && t6[..5] == t5 && t5[..4] == t4 && t4[..3] == t3;
    assert TextsCost(t4) == TextsCost(t3) + 6 * |r.cluster|;
    assert TextsCost(t5) == TextsCost(t4) + 6 * |r.groupVersion|;
    assert TextsCost(t6) == TextsCost(t5) + 6 * |r.uid|;
    assert t7 == [r.kind, r.name, r.namespace, r.cluster, r.groupVersion, r.uid, r.resourceVersion];
  }
}
