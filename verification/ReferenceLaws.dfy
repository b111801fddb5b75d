/** What the allowlist of the impact projection lets through: texts only under identifying keys, and every
    reference of a pod spec. */
module ReferenceLaws {
  import opened Options
  import opened Json
  import opened ImpactProjection
  import opened ImpactSnapshot

  // ---------------------------------------------------------------------------------
  // Only names leave

  /** The keys whose text may be copied. */
  ghost predicate Identifies(n: Bytes) {
    || n == Ascii("kind") || n == Ascii("apiVersion") || n == Ascii("name") || n == Ascii("namespace")
       || n == Ascii("uid")
    || n == Ascii("resourceVersion") || n == Ascii("secretName") || n == Ascii("claimName")
  }

  /** The keys of which only the presence may be told. */
  ghost predicate Hidden(n: Bytes) {
    n == Ascii("subPath") || n == Ascii("subPathExpr")
  }

  /** Every text stands under an identifying key, or is the marker or empty under a hidden one; no list holds texts. */
  ghost predicate NamesOnly(v: Any)
    decreases v
  {
    match v
    case Object(entries) =>
      forall n | n in entries ::
        && NamesOnly(entries[n])
        && (entries[n].Text? ==> Identifies(n) || (Hidden(n) && entries[n].bytes in {[], Ascii("<present>")}))
    case Array(items) => forall i | 0 <= i < |items| :: !items[i].Text? && NamesOnly(items[i])
    case _ => true
  }

  /** The same of a shape: strings under identifying keys, presence under hidden ones. */
  ghost predicate Discreet(shape: Shape)
    decreases shape, 1
  {
    match shape
    case ObjectShape(fields) => forall i | 0 <= i < |fields| :: DiscreetField(fields[i])
    case ArrayShape(element) => !element.StringShape? && !element.PresenceShape? && Discreet(element)
    case _ => true
  }

  ghost predicate DiscreetField(f: ShapeField)
    decreases f, 0
  {
    && Discreet(f.shape)
    && (f.shape.StringShape? ==> Identifies(f.name))
    && (f.shape.PresenceShape? ==> Hidden(f.name))
  }

  lemma {:induction false} DiscreetGivesNames(shape: Shape, v: Any)
    requires Discreet(shape)
    ensures NamesOnly(Projected(shape, v))
    decreases shape
  {
    match shape
    case ObjectShape(fields) =>
      if v.Object? {
        var p := ProjectedEntries(fields, v.entries);
        forall n | n in p
          ensures NamesOnly(p[n])
          ensures p[n].Text? ==> Identifies(n) || (Hidden(n) && p[n].bytes in {[], Ascii("<present>")})
        {
          var i :| 0 <= i < |fields| && fields[i].name == n && fields[i].shape == LastShape(fields, n).value;
          assert DiscreetField(fields[i]);
          DiscreetGivesNames(fields[i].shape, v.entries[n]);
        }
      }
    case ArrayShape(element) =>
      if v.Array? {
        var p := ProjectedItems(element, v.items);
        forall i | 0 <= i < |p| ensures !p[i].Text? && NamesOnly(p[i]) {
          ItemsAt(element, v.items, i);
          DiscreetGivesNames(element, v.items[i]);
        }
      }
    case _ =>
  }

  lemma RefDiscreet()
    ensures Discreet(RefShape())
  {
  }

  lemma ContainerDiscreet()
    ensures Discreet(ContainerShape())
  {
    RefDiscreet();
  }

  lemma PodSpecDiscreet()
    ensures Discreet(PodSpecShape())
  {
    ContainerDiscreet();
    VolumeDiscreet();
    var fields := PodSpecShape().fields;
    assert DiscreetField(fields[0]) && DiscreetField(fields[1]) && DiscreetField(fields[2]) && DiscreetField(fields[3]);
  }

  function VolumeShape(): Shape {
    PodSpecShape().fields[3].shape.element
  }

  lemma VolumeDiscreet()
    ensures Discreet(VolumeShape())
  {
    RefDiscreet();
    var fields := VolumeShape().fields;
    var sources := fields[4].shape.fields[0].shape.element;
    assert DiscreetField(sources.fields[0]) && DiscreetField(sources.fields[1]);
    assert Discreet(sources);
    assert DiscreetField(fields[2].shape.fields[0]) && DiscreetField(fields[2].shape.fields[1]);
    assert DiscreetField(fields[3].shape.fields[0]) && DiscreetField(fields[4].shape.fields[0]);
    assert DiscreetField(fields[0]) && DiscreetField(fields[1]) && DiscreetField(fields[2]);
    assert DiscreetField(fields[3]) && DiscreetField(fields[4]);
  }

  lemma MetadataDiscreet()
    ensures Discreet(MetadataShape())
  {
  }

  lemma {:induction false} BelowDiscreet(path: seq<string>)
    ensures Discreet(Below(path)) && Below(path).ObjectShape?
    decreases |path|
  {
    if path == [] { PodSpecDiscreet(); } else { BelowDiscreet(path[1..]); }
  }

  /** No literal leaves: whatever the payload of a resource holds, each text in its copy names something, or is the
      presence marker. */
  lemma OnlyNamesLeave(r: Resource)
    ensures NamesOnly(References(r)) && NamesOnly(Copied(r).raw)
  {
    var shape := ReferenceShape(r.kind, r.groupVersion);
    if shape.Some? {
      ReferenceDiscreet(r.kind, r.groupVersion);
      DiscreetGivesNames(shape.value, r.raw);
    }
  }

  lemma ReferenceDiscreet(kind: Bytes, groupVersion: Bytes)
    requires ReferenceShape(kind, groupVersion).Some?
    ensures Discreet(ReferenceShape(kind, groupVersion).value)
  {
    var path := PodSpecPath(kind, groupVersion);
    var shape := ReferenceShape(kind, groupVersion).value;
    MetadataDiscreet();
    BelowDiscreet(path[1..]);
    assert shape.fields[0] == Named("kind", StringShape) && shape.fields[1] == Named("apiVersion", StringShape);
    assert shape.fields[2].shape == MetadataShape() && shape.fields[3].shape == Below(path[1..]);
    assert DiscreetField(shape.fields[0]) && DiscreetField(shape.fields[1]);
    assert DiscreetField(shape.fields[2]) && DiscreetField(shape.fields[3]);
  }

  // ---------------------------------------------------------------------------------
  // Every reference is kept

  datatype PathStep = Key(name: Bytes) | Index(i: nat)

  /** What stands at a path, if anything does. */
  function At(v: Any, path: seq<PathStep>): Option<Any>
    decreases |path|
  {
    if path == [] then Some(v)
    else
      match path[0]
      case Key(name) => if v.Object? && name in v.entries then At(v.entries[name], path[1..]) else None
      case Index(i) => if v.Array? && i < |v.items| then At(v.items[i], path[1..]) else None
  }

  function ShapeAt(shape: Shape, path: seq<PathStep>): Option<Shape>
    decreases |path|
  {
    if path == [] then Some(shape)
    else
      match path[0]
      case Key(name) =>
        if shape.ObjectShape? && LastShape(shape.fields, name).Some?
        then ShapeAt(LastShape(shape.fields, name).value, path[1..]) else None
      case Index(i) => if shape.ArrayShape? then ShapeAt(shape.element, path[1..]) else None
  }

  /** Whatever stands at a path of the shape stands there in the projection, projected. */
  lemma {:induction false} ProjectedAt(shape: Shape, v: Any, path: seq<PathStep>)
    requires ShapeAt(shape, path).Some? && At(v, path).Some?
    ensures At(Projected(shape, v), path) == Some(Projected(ShapeAt(shape, path).value, At(v, path).value))
    decreases |path|
  {
    if path != [] {
      match path[0]
      case Key(name) => ProjectedAt(LastShape(shape.fields, name).value, v.entries[name], path[1..]);
      case Index(i) =>
        ItemsAt(shape.element, v.items, i);
        ProjectedAt(shape.element, v.items[i], path[1..]);
    }
  }

  lemma {:induction false} ShapeAtAppends(shape: Shape, a: seq<PathStep>, b: seq<PathStep>)
    requires ShapeAt(shape, a).Some?
    ensures ShapeAt(shape, a + b) == ShapeAt(ShapeAt(shape, a).value, b)
    decreases |a|
  {
    if a == [] {
      assert a + b == b;
    } else {
      assert (a + b)[1..] == a[1..] + b;
      match a[0]
      case Key(name) => ShapeAtAppends(LastShape(shape.fields, name).value, a[1..], b);
      case Index(i) => ShapeAtAppends(shape.element, a[1..], b);
    }
  }

  function Keys(names: seq<string>): (path: seq<PathStep>)
    ensures |path| == |names| && forall i | 0 <= i < |names| :: path[i] == Key(Ascii(names[i]))
  {
    seq(|names|, i requires 0 <= i < |names| => Key(Ascii(names[i])))
  }

  lemma {:induction false} FieldAt(fields: seq<ShapeField>, k: nat)
    requires k < |fields| && forall j | k < j < |fields| :: fields[j].name != fields[k].name
    ensures LastShape(fields, fields[k].name) == Some(fields[k].shape)
    decreases |fields|
  {
    if k < |fields| - 1 { FieldAt(fields[..|fields| - 1], k); }
  }

  lemma {:induction false} KeyAt(shape: Shape, k: nat, name: string, rest: seq<PathStep>)
    requires shape.ObjectShape? && k < |shape.fields| && shape.fields[k].name == Ascii(name)
    requires forall j | k < j < |shape.fields| :: shape.fields[j].name != Ascii(name)
    ensures ShapeAt(shape, [Key(Ascii(name))] + rest) == ShapeAt(shape.fields[k].shape, rest)
  {
    FieldAt(shape.fields, k);
    assert ([Key(Ascii(name))] + rest)[1..] == rest;
  }

  lemma {:induction false} ElementAt(shape: Shape, i: nat, rest: seq<PathStep>)
    requires shape.ArrayShape?
    ensures ShapeAt(shape, [Index(i)] + rest) == ShapeAt(shape.element, rest)
  {
    assert ([Index(i)] + rest)[1..] == rest;
  }

  /** The path to the name in a reference. */
  const NamePath := [Key(Ascii("name"))]

  lemma NameAt()
    ensures ShapeAt(RefShape(), NamePath) == Some(StringShape)
  {
    KeyAt(RefShape(), 0, "name", []);
    assert NamePath + [] == NamePath;
  }

  /** What a container uses: a source of all its variables, the source of one, or a volume. */
  datatype Use = EnvFrom(i: nat, secret: bool) | EnvValue(i: nat, secret: bool) | Mount(i: nat)

  /** Where the name of what a container uses stands. */
  function UsePath(use: Use): seq<PathStep> {
    match use
    case EnvFrom(i, secret) =>
      [Key(Ascii("envFrom"))] + ([Index(i)] + ([Key(Ascii(if secret then "secretRef" else "configMapRef"))] + NamePath))
    case EnvValue(i, secret) =>
      [Key(Ascii("env"))] + ([Index(i)] + ([Key(Ascii("valueFrom"))]
      + ([Key(Ascii(if secret then "secretKeyRef" else "configMapKeyRef"))] + NamePath)))
    case Mount(i) => [Key(Ascii("volumeMounts"))] + ([Index(i)] + NamePath)
  }

  lemma EnvFromIsName(i: nat, secret: bool)
    ensures ShapeAt(ContainerShape(), UsePath(EnvFrom(i, secret))) == Some(StringShape)
  {
    var name := if secret then "secretRef" else "configMapRef";
    var list := ContainerShape().fields[0].shape;
    KeyAt(ContainerShape(), 0, "envFrom", [Index(i)] + ([Key(Ascii(name))] + NamePath));
    ElementAt(list, i, [Key(Ascii(name))] + NamePath);
    KeyAt(list.element, if secret then 1 else 0, name, NamePath);
    NameAt();
  }

  lemma EnvValueIsName(i: nat, secret: bool)
    ensures ShapeAt(ContainerShape(), UsePath(EnvValue(i, secret))) == Some(StringShape)
  {
    var name := if secret then "secretKeyRef" else "configMapKeyRef";
    var list := ContainerShape().fields[1].shape;
    var value := list.element.fields[0].shape;
    KeyAt(ContainerShape(), 1, "env", [Index(i)] + ([Key(Ascii("valueFrom"))] + ([Key(Ascii(name))] + NamePath)));
    ElementAt(list, i, [Key(Ascii("valueFrom"))] + ([Key(Ascii(name))] + NamePath));
    KeyAt(list.element, 0, "valueFrom", [Key(Ascii(name))] + NamePath);
    KeyAt(value, if secret then 1 else 0, name, NamePath);
    NameAt();
  }

  lemma MountIsName(i: nat)
    ensures ShapeAt(ContainerShape(), UsePath(Mount(i))) == Some(StringShape)
  {
    var list := ContainerShape().fields[2].shape;
    KeyAt(ContainerShape(), 2, "volumeMounts", [Index(i)] + NamePath);
    ElementAt(list, i, NamePath);
    KeyAt(list.element, 0, "name", []);
    assert NamePath + [] == NamePath;
  }

  /** What a volume is made of. */
  datatype Source = FromConfigMap | FromSecret | FromClaim | FromProjected(i: nat, secret: bool)

  function SourcePath(source: Source): seq<PathStep> {
    match source
    case FromConfigMap => [Key(Ascii("configMap"))] + NamePath
    case FromSecret => [Key(Ascii("secret"))] + ([Key(Ascii("secretName"))] + [])
    case FromClaim => [Key(Ascii("persistentVolumeClaim"))] + ([Key(Ascii("claimName"))] + [])
    case FromProjected(i, secret) =>
      [Key(Ascii("projected"))] + ([Key(Ascii("sources"))] + ([Index(i)]
      + ([Key(Ascii(if secret then "secret" else "configMap"))] + NamePath)))
  }

  lemma SourceIsName(source: Source)
    ensures ShapeAt(VolumeShape(), SourcePath(source)) == Some(StringShape)
  {
    var fields := VolumeShape().fields;
    match source
    case FromConfigMap =>
      assert Ascii("projected")[0] != Ascii("configMap")[0];
      KeyAt(VolumeShape(), 1, "configMap", NamePath);
      NameAt();
    case FromSecret =>
      KeyAt(VolumeShape(), 2, "secret", [Key(Ascii("secretName"))] + []);
      KeyAt(fields[2].shape, 0, "secretName", []);
    case FromClaim =>
      KeyAt(VolumeShape(), 3, "persistentVolumeClaim", [Key(Ascii("claimName"))] + []);
      KeyAt(fields[3].shape, 0, "claimName", []);
    case FromProjected(i, secret) => ProjectedSourceIsName(i, secret);
  }

  lemma ProjectedSourceIsName(i: nat, secret: bool)
    ensures ShapeAt(VolumeShape(), SourcePath(FromProjected(i, secret))) == Some(StringShape)
  {
    var name := if secret then "secret" else "configMap";
    var projected := VolumeShape().fields[4].shape;
    var sources := projected.fields[0].shape;
    KeyAt(VolumeShape(), 4, "projected", [Key(Ascii("sources"))] + ([Index(i)] + ([Key(Ascii(name))] + NamePath)));
    KeyAt(projected, 0, "sources", [Index(i)] + ([Key(Ascii(name))] + NamePath));
    ElementAt(sources, i, [Key(Ascii(name))] + NamePath);
    KeyAt(sources.element, if secret then 1 else 0, name, NamePath);
    NameAt();
  }

  /** The three lists of containers in a pod spec. */
  datatype Containers = Ordinary | Init | Ephemeral

  function ListName(list: Containers): string {
    match list
    case Ordinary => "containers"
    case Init => "initContainers"
    case Ephemeral => "ephemeralContainers"
  }

  /** A reference in a pod spec. */
  datatype Reference = InContainer(list: Containers, c: nat, use: Use) | InVolume(v: nat, source: Source)

  function ReferencePath(ref: Reference): seq<PathStep> {
    match ref
    case InContainer(list, c, use) => [Key(Ascii(ListName(list)))] + ([Index(c)] + UsePath(use))
    case InVolume(v, source) => [Key(Ascii("volumes"))] + ([Index(v)] + SourcePath(source))
  }

  lemma ReferenceIsName(ref: Reference)
    ensures ShapeAt(PodSpecShape(), ReferencePath(ref)) == Some(StringShape)
  {
    var fields := PodSpecShape().fields;
    match ref
    case InContainer(list, c, use) =>
      var k := match list { case Ordinary => 0 case Init => 1 case Ephemeral => 2 };
      KeyAt(PodSpecShape(), k, ListName(list), [Index(c)] + UsePath(use));
      ElementAt(fields[k].shape, c, UsePath(use));
      match use {
        case EnvFrom(i, secret) => EnvFromIsName(i, secret);
        case EnvValue(i, secret) => EnvValueIsName(i, secret);
        case Mount(i) => MountIsName(i);
      }
    case InVolume(v, source) =>
      KeyAt(PodSpecShape(), 3, "volumes", [Index(v)] + SourcePath(source));
      ElementAt(fields[3].shape, v, SourcePath(source));
      SourceIsName(source);
  }

  lemma {:induction false} SpecAt(path: seq<string>)
    ensures ShapeAt(Below(path), Keys(path)) == Some(PodSpecShape())
    decreases |path|
  {
    if path != [] {
      KeyAt(Below(path), 0, path[0], Keys(path[1..]));
      assert Keys(path) == [Key(Ascii(path[0]))] + Keys(path[1..]);
      SpecAt(path[1..]);
    }
  }

  /** Where a reference of a workload stands in its payload. */
  function PathIn(r: Resource, ref: Reference): seq<PathStep> {
    Keys(PodSpecPath(r.kind, r.groupVersion)) + ReferencePath(ref)
  }

  lemma ReferenceShapeAt(r: Resource, ref: Reference)
    requires ReferenceShape(r.kind, r.groupVersion).Some?
    ensures ShapeAt(ReferenceShape(r.kind, r.groupVersion).value, PathIn(r, ref)) == Some(StringShape)
  {
    var path := PodSpecPath(r.kind, r.groupVersion);
    var shape := ReferenceShape(r.kind, r.groupVersion).value;
    KeyAt(shape, 3, path[0], Keys(path[1..]) + ReferencePath(ref));
    assert PathIn(r, ref) == [Key(Ascii(path[0]))] + (Keys(path[1..]) + ReferencePath(ref));
    SpecAt(path[1..]);
    ShapeAtAppends(Below(path[1..]), Keys(path[1..]), ReferencePath(ref));
    ReferenceIsName(ref);
  }

  /** Every reference of a known workload with a complete identity is kept: the name it gives stands at the same place
      of the copy's payload. */
  lemma ReferencesAreKept(r: Resource, ref: Reference, name: Bytes)
    requires ReferenceShape(r.kind, r.groupVersion).Some? && r.uid != [] && r.resourceVersion != []
    requires At(r.raw, PathIn(r, ref)) == Some(Text(name))
    ensures At(References(r), PathIn(r, ref)) == Some(Text(name))
  {
    var shape := ReferenceShape(r.kind, r.groupVersion).value;
    ReferenceShapeAt(r, ref);
    ProjectedAt(shape, r.raw, PathIn(r, ref));
    var p := Projected(shape, r.raw);
    assert PathIn(r, ref)[0].Key?;
    assert r.raw.Object? && p.Object? && PathIn(r, ref)[0].name in p.entries;
  }

  /** A reference keeps whether it is optional, too. */
  lemma OptionalIsKept(v: Any, flag: bool)
    requires At(v, [Key(Ascii("optional"))]) == Some(Flag(flag))
    ensures At(Projected(RefShape(), v), [Key(Ascii("optional"))]) == Some(Flag(flag))
  {
    KeyAt(RefShape(), 1, "optional", []);
    assert [Key(Ascii("optional"))] + [] == [Key(Ascii("optional"))];
    ProjectedAt(RefShape(), v, [Key(Ascii("optional"))]);
  }

  /** A mount keeps whether it has a sub path or a sub path expression, and no more of it. */
  lemma SubPathPresenceIsKept(container: Any, i: nat, expression: bool, text: Bytes)
    requires var path := [Key(Ascii("volumeMounts"))]
                         + ([Index(i)] + ([Key(Ascii(if expression then "subPathExpr" else "subPath"))] + []));
             At(container, path) == Some(Text(text))
    ensures var path := [Key(Ascii("volumeMounts"))]
                        + ([Index(i)] + ([Key(Ascii(if expression then "subPathExpr" else "subPath"))] + []));
            At(Projected(ContainerShape(), container), path)
                == Some(Text(if text == [] then [] else Ascii("<present>")))
  {
    var name := if expression then "subPathExpr" else "subPath";
    var list := ContainerShape().fields[2].shape;
    var path := [Key(Ascii("volumeMounts"))] + ([Index(i)] + ([Key(Ascii(name))] + []));
    KeyAt(ContainerShape(), 2, "volumeMounts", [Index(i)] + ([Key(Ascii(name))] + []));
    ElementAt(list, i, [Key(Ascii(name))] + []);
    KeyAt(list.element, if expression then 2 else 1, name, []);
    ProjectedAt(ContainerShape(), container, path);
    PresenceHidesTheText(text);
  }

  /** The workloads whose payload is looked at. */
  ghost predicate KnownWorkload(kind: Bytes, groupVersion: Bytes) {
    || (kind == Ascii("Pod") && groupVersion == Ascii("v1"))
    || (kind == Ascii("Deployment") && groupVersion == Ascii("apps/v1"))
    || (kind == Ascii("ReplicaSet") && groupVersion == Ascii("apps/v1"))
    || (kind == Ascii("StatefulSet") && groupVersion == Ascii("apps/v1"))
    || (kind == Ascii("DaemonSet") && groupVersion == Ascii("apps/v1"))
    || (kind == Ascii("Job") && groupVersion == Ascii("batch/v1"))
    || (kind == Ascii("CronJob") && groupVersion == Ascii("batch/v1"))
  }

  /** A payload is kept of exactly the seven built-in workloads, and only with a complete identity. */
  lemma PayloadOnlyOfWorkloads(r: Resource)
    ensures ReferenceShape(r.kind, r.groupVersion).Some? <==> KnownWorkload(r.kind, r.groupVersion)
    ensures References(r) != Nil ==> KnownWorkload(r.kind, r.groupVersion) && r.uid != [] && r.resourceVersion != []
  {
  }

  // ---------------------------------------------------------------------------------
  // The charge

  lemma RefWellNamed()
    ensures WellNamed(RefShape())
  {
  }

  lemma EnvWellNamed()
    ensures WellNamed(ContainerShape().fields[0].shape) && WellNamed(ContainerShape().fields[1].shape)
  {
    RefWellNamed();
  }

  lemma MountWellNamed()
    ensures WellNamed(ContainerShape().fields[2].shape)
  {
  }

  lemma ContainerWellNamed()
    ensures WellNamed(ContainerShape())
  {
    EnvWellNamed();
    MountWellNamed();
  }

  lemma SourcesWellNamed()
    ensures WellNamed(VolumeShape().fields[4].shape) && WellNamed(VolumeShape().fields[2].shape)
  {
    RefWellNamed();
  }

  lemma VolumeWellNamed()
    ensures WellNamed(VolumeShape())
  {
    RefWellNamed();
    SourcesWellNamed();
    var fields := VolumeShape().fields;
    assert fields[1].name[0] == 0x63 && fields[4].name[0] == 0x70;
  }

  lemma PodSpecWellNamed()
    ensures WellNamed(PodSpecShape())
  {
    ContainerWellNamed();
    VolumeWellNamed();
  }

  lemma MetadataWellNamed()
    ensures WellNamed(MetadataShape())
  {
  }

  lemma {:induction false} BelowWellNamed(path: seq<string>)
    ensures WellNamed(Below(path))
    decreases |path|
  {
    if path == [] { PodSpecWellNamed(); } else { BelowWellNamed(path[1..]); }
  }

  lemma ReferenceWellNamed(kind: Bytes, groupVersion: Bytes)
    requires ReferenceShape(kind, groupVersion).Some?
    ensures WellNamed(ReferenceShape(kind, groupVersion).value)
  {
    var path := PodSpecPath(kind, groupVersion);
    MetadataWellNamed();
    BelowWellNamed(path[1..]);
    var fields := ReferenceShape(kind, groupVersion).value.fields;
    assert path[0] == "spec" && fields[0].name[0] == 0x6B && fields[3].name[0] == 0x73;
  }

  /** Resources that give one copy are charged alike for it: what is hidden does not show in the budget either. */
  lemma AlikeAreChargedAlike(a: Resource, b: Resource)
    requires AlikeResources(a, b)
    ensures ResourceCost(a) == ResourceCost(b)
  {
    var shape := ReferenceShape(a.kind, a.groupVersion);
    if shape.Some? && a.kind != Secret {
      ReferenceWellNamed(a.kind, a.groupVersion);
      if Alike(shape.value, a.raw, b.raw) { AlikeCostTheSame(shape.value, a.raw, b.raw); }
    }
  }
}
