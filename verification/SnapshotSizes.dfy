/** The sizes the projection builder reckons with are the lengths of real JSON texts: of payloads, of resources and of
    edges, in whatever order the keys of a map are written. */
module SnapshotSizes {
  import opened Options
  import opened Json
  import opened ImpactProjection
  import opened ImpactSnapshot

  // ---------------------------------------------------------------------------------
  // Payloads

  ghost predicate Orders(entries: map<Bytes, Any>, ks: seq<Bytes>) {
    && (forall i, j | 0 <= i < j < |ks| :: ks[i] != ks[j])
    && forall k :: k in ks <==> k in entries
  }

  function MembersText(ks: seq<Bytes>, ts: seq<Bytes>): (r: seq<Bytes>)
    requires |ks| == |ts|
    ensures |r| == |ks|
  {
    if ks == [] then []
    else MembersText(ks[..|ks| - 1], ts[..|ts| - 1]) + [StringText(ks[|ks| - 1]) + [0x3A] + ts[|ts| - 1]]
  }

  /** A text of a payload: every key and value once, the keys of an object in any order. */
  ghost predicate IsText(a: Any, t: Bytes)
    decreases a
  {
    match a
    case Nil => t == Ascii("null")
    case Text(bytes) => t == StringText(bytes)
    case Flag(flag) => t == Ascii(if flag then "true" else "false")
    case Number(digits) => t == digits
    case Object(entries) =>
      exists ks: seq<Bytes>, ts: seq<Bytes> ::
        && Orders(entries, ks) && |ts| == |ks| && t == ObjectText(MembersText(ks, ts))
        && forall i | 0 <= i < |ks| && ks[i] in entries :: IsText(entries[ks[i]], ts[i])
    case Array(items) =>
      exists ts: seq<Bytes> ::
        |ts| == |items| && t == ListText(ts) && forall i | 0 <= i < |items| :: IsText(items[i], ts[i])
  }

  lemma OneText(t: Bytes)
    ensures TotalLength([t]) == |t|
  {
    var none: seq<Bytes> := [];
    assert [t][1..] == none;
  }

  lemma {:induction false} ItemsTextSize(items: seq<Any>, ts: seq<Bytes>)
    requires |ts| == |items| && forall i | 0 <= i < |items| :: IsText(items[i], ts[i])
    ensures TotalLength(ts) == ItemsSize(items)
    decreases items, 0
  {
    if items != [] {
      TextSize(items[0], ts[0]);
      ItemsTextSize(items[1..], ts[1..]);
    }
  }

  ghost function Keys(ks: seq<Bytes>): set<Bytes> {
    set k | k in ks
  }

  lemma {:induction false} EntriesTextSize(a: Any, ks: seq<Bytes>, ts: seq<Bytes>)
    requires a.Object? && Keys(ks) <= a.entries.Keys && |ts| == |ks|
    requires forall i, j | 0 <= i < j < |ks| :: ks[i] != ks[j]
    requires forall i | 0 <= i < |ks| && ks[i] in a.entries :: IsText(a.entries[ks[i]], ts[i])
    ensures TotalLength(MembersText(ks, ts)) == EntriesSize(a, Keys(ks)) && |Keys(ks)| == |ks|
    decreases a, 0, |ks|
  {
    if ks == [] {
      assert Keys(ks) == {};
    } else {
      var n := |ks| - 1;
      var last: Bytes := StringText(ks[n]) + [0x3A] + ts[n];
      assert ks[n] in Keys(ks);
      assert Keys(ks[..n]) == Keys(ks) - {ks[n]};
      EntriesTextSize(a, ks[..n], ts[..n]);
      TextSize(a.entries[ks[n]], ts[n]);
      EntriesSplit(a, Keys(ks), ks[n]);
      TotalLengthAppends(MembersText(ks[..n], ts[..n]), [last]);
      OneText(last);
    }
  }

  lemma {:induction false} ObjectTextSize(a: Any, ks: seq<Bytes>, ts: seq<Bytes>)
    requires a.Object? && Orders(a.entries, ks) && |ts| == |ks|
    requires forall i | 0 <= i < |ks| && ks[i] in a.entries :: IsText(a.entries[ks[i]], ts[i])
    ensures |ObjectText(MembersText(ks, ts))| == JsonSize(a)
    decreases a, 0, |ks| + 1
  {
    assert Keys(ks) == a.entries.Keys;
    EntriesTextSize(a, ks, ts);
    JoinLength(MembersText(ks, ts));
    assert |a.entries| == |a.entries.Keys|;
  }

  /** The size of a payload is the length of each of its texts. */
  lemma {:induction false} TextSize(a: Any, t: Bytes)
    requires IsText(a, t)
    ensures |t| == JsonSize(a)
    decreases a, 1
  {
    match a
    case Object(entries) =>
      var ks: seq<Bytes>, ts: seq<Bytes> :|
        && Orders(entries, ks) && |ts| == |ks| && t == ObjectText(MembersText(ks, ts))
        && forall i | 0 <= i < |ks| && ks[i] in entries :: IsText(entries[ks[i]], ts[i]);
      ObjectTextSize(a, ks, ts);
    case Array(items) =>
      var ts: seq<Bytes> :|
        |ts| == |items| && t == ListText(ts) && forall i | 0 <= i < |items| :: IsText(items[i], ts[i]);
      ItemsTextSize(items, ts);
      JoinLength(ts);
    case _ =>
  }

  lemma {:induction false} ListKeys(keys: set<Bytes>) returns (ks: seq<Bytes>)
    ensures (forall i, j | 0 <= i < j < |ks| :: ks[i] != ks[j]) && forall k :: k in ks <==> k in keys
    decreases |keys|
  {
    ks := [];
    if keys != {} {
      var k :| k in keys;
      var rest := ListKeys(keys - {k});
      ks := rest + [k];
    }
  }

  lemma {:induction false} SomeTexts(a: Any, ks: seq<Bytes>) returns (ts: seq<Bytes>)
    requires a.Object? && forall k | k in ks :: k in a.entries
    ensures |ts| == |ks| && forall i | 0 <= i < |ks| && ks[i] in a.entries :: IsText(a.entries[ks[i]], ts[i])
    decreases a, 0, |ks|
  {
    ts := [];
    if ks != [] {
      var n := |ks| - 1;
      ts := SomeTexts(a, ks[..n]);
      var last := SomeText(a.entries[ks[n]]);
      ts := ts + [last];
    }
  }

  lemma {:induction false} SomeItems(items: seq<Any>) returns (ts: seq<Bytes>)
    ensures |ts| == |items| && forall i | 0 <= i < |items| :: IsText(items[i], ts[i])
    decreases items, 0
  {
    ts := [];
    if items != [] {
      var first := SomeText(items[0]);
      var rest := SomeItems(items[1..]);
      ts := [first] + rest;
    }
  }

  /** Every payload has a text. */
  lemma {:induction false} SomeText(a: Any) returns (t: Bytes)
    ensures IsText(a, t)
    decreases a, 1
  {
    match a
    case Nil => t := Ascii("null");
    case Text(bytes) => t := StringText(bytes);
    case Flag(flag) => t := Ascii(if flag then "true" else "false");
    case Number(digits) => t := digits;
    case Object(entries) =>
      var ks := ListKeys(entries.Keys);
      var ts := SomeTexts(a, ks);
      t := ObjectText(MembersText(ks, ts));
      assert Orders(entries, ks);
    case Array(items) =>
      var ts := SomeItems(items);
      t := ListText(ts);
  }

  // ---------------------------------------------------------------------------------
  // Resources and edges

  predicate Letter(c: char) {
    'a' <= c <= 'z' || 'A' <= c <= 'Z'
  }

  predicate Letters(key: string) {
    forall i | 0 <= i < |key| :: Letter(key[i])
  }

  predicate PlainByte(b: Byte) {
    0x41 <= b <= 0x5A || 0x61 <= b <= 0x7A
  }

  lemma {:induction false} PlainEscaped(s: Bytes)
    requires forall i | 0 <= i < |s| :: PlainByte(s[i])
    ensures Escaped(s) == s
  {
    if s != [] {
      PlainEscaped(s[1..]);
      assert PlainByte(s[0]) && Step(s) == (1, [s[0]]);
      assert s == [s[0]] + s[1..];
    }
  }

  /** A member of a struct. */
  function Member(key: string, value: Bytes): Bytes {
    StringText(Ascii(key)) + [0x3A] + value
  }

  lemma MemberLength(key: string, value: Bytes)
    requires Letters(key)
    ensures |Member(key, value)| + 1 == MemberSize(key, |value|)
  {
    forall i | 0 <= i < |key| ensures PlainByte(Ascii(key)[i]) { assert Letter(key[i]); }
    PlainEscaped(Ascii(key));
  }

  /** A member, or with omitempty none. */
  function MemberIf(written: bool, key: string, value: Bytes): seq<Bytes> {
    if written then [Member(key, value)] else []
  }

  /** Members, each with the comma or brace after it. */
  function Padded(members: seq<Bytes>): nat {
    TotalLength(members) + |members|
  }

  lemma PaddedAppends(a: seq<Bytes>, b: seq<Bytes>)
    ensures Padded(a + b) == Padded(a) + Padded(b)
  {
    TotalLengthAppends(a, b);
  }

  lemma PaddedMember(written: bool, key: string, value: Bytes)
    requires Letters(key)
    ensures Padded(MemberIf(written, key, value)) == if written then MemberSize(key, |value|) else 0
  {
    if written {
      MemberLength(key, value);
      OneText(Member(key, value));
    }
  }

  lemma ObjectLength(members: seq<Bytes>)
    requires members != []
    ensures |ObjectText(members)| == 1 + Padded(members)
  {
    JoinLength(members);
  }

  function Texts(m: map<Bytes, Bytes>): map<Bytes, Any> {
    map k | k in m :: Text(m[k])
  }

  /** A map of strings and a text of it. */
  ghost predicate MapText(m: map<Bytes, Bytes>, t: Bytes) {
    m != map[] ==> IsText(Object(Texts(m)), t)
  }

  lemma PaddedMap(key: string, m: map<Bytes, Bytes>, t: Bytes)
    requires Letters(key) && MapText(m, t)
    ensures Padded(MemberIf(m != map[], key, t)) == OptionalMap(key, m)
  {
    PaddedMember(m != map[], key, t);
    if m != map[] { TextSize(Object(Texts(m)), t); }
  }

  lemma PaddedText(key: string, s: Bytes)
    requires Letters(key)
    ensures Padded(MemberIf(s != [], key, StringText(s))) == OptionalText(key, s)
  {
    PaddedMember(s != [], key, StringText(s));
  }

  function OwnerText(o: OwnerRef): Bytes {
    ObjectText(MemberIf(true, "kind", StringText(o.kind)) + MemberIf(true, "name", StringText(o.name))
               + MemberIf(true, "uid", StringText(o.uid)))
  }

  lemma OwnerLength(o: OwnerRef)
    ensures |OwnerText(o)| == OwnerSize(o)
  {
    var a, b := MemberIf(true, "kind", StringText(o.kind)), MemberIf(true, "name", StringText(o.name));
    var c := MemberIf(true, "uid", StringText(o.uid));
    PaddedMember(true, "kind", StringText(o.kind));
    PaddedMember(true, "name", StringText(o.name));
    PaddedMember(true, "uid", StringText(o.uid));
    PaddedAppends(a, b);
    PaddedAppends(a + b, c);
    ObjectLength(a + b + c);
  }

  function OwnerTexts(owners: seq<OwnerRef>): (r: seq<Bytes>)
    ensures |r| == |owners|
  {
    if owners == [] then [] else OwnerTexts(owners[..|owners| - 1]) + [OwnerText(owners[|owners| - 1])]
  }

  lemma {:induction false} OwnersLength(owners: seq<OwnerRef>)
    ensures TotalLength(OwnerTexts(owners)) == OwnersSize(owners)
  {
    if owners != [] {
      var n := |owners| - 1;
      OwnersLength(owners[..n]);
      OwnerLength(owners[n]);
      TotalLengthAppends(OwnerTexts(owners[..n]), [OwnerText(owners[n])]);
      OneText(OwnerText(owners[n]));
    }
  }

  lemma PaddedOwners(owners: seq<OwnerRef>)
    ensures Padded(MemberIf(owners != [], "ownerReferences", ListText(OwnerTexts(owners)))) == OwnersMember(owners)
  {
    PaddedMember(owners != [], "ownerReferences", ListText(OwnerTexts(owners)));
    OwnersLength(owners);
    JoinLength(OwnerTexts(owners));
  }

  function Named(r: Resource): seq<Bytes> {
    MemberIf(true, "kind", StringText(r.kind)) + MemberIf(true, "name", StringText(r.name))
    + MemberIf(true, "namespace", StringText(r.namespace))
  }

  function Versioned(r: Resource, annotations: Bytes): seq<Bytes> {
    MemberIf(r.groupVersion != [], "groupVersion", StringText(r.groupVersion))
    + MemberIf(r.uid != [], "uid", StringText(r.uid))
    + MemberIf(r.annotations != map[], "annotations", annotations)
  }

  function Owned(r: Resource): seq<Bytes> {
    MemberIf(r.owners != [], "ownerReferences", ListText(OwnerTexts(r.owners)))
    + MemberIf(r.resourceVersion != [], "resourceVersion", StringText(r.resourceVersion))
    + MemberIf(r.cluster != [], "clusterId", StringText(r.cluster))
  }

  /** The JSON text of a resource: its members in the order of their declaration, the payload not among them. */
  function ResourceText(r: Resource, labels: Bytes, annotations: Bytes): Bytes {
    ObjectText(Named(r) + MemberIf(r.labels != map[], "labels", labels) + Versioned(r, annotations) + Owned(r))
  }

  lemma PaddedThree(a: seq<Bytes>, b: seq<Bytes>, c: seq<Bytes>)
    ensures Padded(a + b + c) == Padded(a) + Padded(b) + Padded(c)
  {
    PaddedAppends(a, b);
    PaddedAppends(a + b, c);
  }

  lemma FourParts(a: seq<Bytes>, b: seq<Bytes>, c: seq<Bytes>, d: seq<Bytes>)
    requires a != []
    ensures |ObjectText(a + b + c + d)| == 1 + Padded(a) + Padded(b) + Padded(c) + Padded(d)
  {
    PaddedThree(a, b, c);
    PaddedAppends(a + b + c, d);
    ObjectLength(a + b + c + d);
  }

  lemma NamedLength(r: Resource)
    ensures Padded(Named(r)) == MemberSize("kind", |StringText(r.kind)|) + MemberSize("name", |StringText(r.name)|)
                                + MemberSize("namespace", |StringText(r.namespace)|)
  {
    PaddedMember(true, "kind", StringText(r.kind));
    PaddedMember(true, "name", StringText(r.name));
    PaddedMember(true, "namespace", StringText(r.namespace));
    PaddedThree(MemberIf(true, "kind", StringText(r.kind)), MemberIf(true, "name", StringText(r.name)),
                MemberIf(true, "namespace", StringText(r.namespace)));
  }

  lemma VersionedLength(r: Resource, annotations: Bytes)
    requires MapText(r.annotations, annotations)
    ensures Padded(Versioned(r, annotations))
            == OptionalText("groupVersion", r.groupVersion) + OptionalText("uid", r.uid)
               + OptionalMap("annotations", r.annotations)
  {
    PaddedText("groupVersion", r.groupVersion);
    PaddedText("uid", r.uid);
    PaddedMap("annotations", r.annotations, annotations);
    PaddedThree(MemberIf(r.groupVersion != [], "groupVersion", StringText(r.groupVersion)),
                MemberIf(r.uid != [], "uid", StringText(r.uid)),
                MemberIf(r.annotations != map[], "annotations", annotations));
  }

  lemma OwnedLength(r: Resource)
    ensures Padded(Owned(r)) == OwnersMember(r.owners) + OptionalText("resourceVersion", r.resourceVersion)
                                + OptionalText("clusterId", r.cluster)
  {
    PaddedOwners(r.owners);
    PaddedText("resourceVersion", r.resourceVersion);
    PaddedText("clusterId", r.cluster);
    PaddedThree(MemberIf(r.owners != [], "ownerReferences", ListText(OwnerTexts(r.owners))),
                MemberIf(r.resourceVersion != [], "resourceVersion", StringText(r.resourceVersion)),
                MemberIf(r.cluster != [], "clusterId", StringText(r.cluster)));
  }

  /** The size of a resource is the length of its text and of the payload beside it. */
  lemma {:induction false} ResourceLength(r: Resource, labels: Bytes, annotations: Bytes, payload: Bytes)
    requires MapText(r.labels, labels) && MapText(r.annotations, annotations)
    requires if r.raw == Nil then payload == [] else IsText(r.raw, payload)
    ensures |ResourceText(r, labels, annotations)| + |payload| == ResourceSize(r)
  {
    NamedLength(r);
    PaddedMap("labels", r.labels, labels);
    VersionedLength(r, annotations);
    OwnedLength(r);
    FourParts(Named(r), MemberIf(r.labels != map[], "labels", labels), Versioned(r, annotations), Owned(r));
    if r.raw != Nil { TextSize(r.raw, payload); }
  }

  /** What is written of a copy, payload and separator included, is at most what was charged for it. */
  lemma CopyFitsItsCharge(r: Resource, labels: Bytes, annotations: Bytes, payload: Bytes)
    requires MapText(Copied(r).labels, labels) && MapText(Copied(r).annotations, annotations)
    requires if Copied(r).raw == Nil then payload == [] else IsText(Copied(r).raw, payload)
    ensures |ResourceText(Copied(r), labels, annotations)| + |payload| + 1 <= ResourceCost(r)
  {
    ResourceLength(Copied(r), labels, annotations, payload);
    ResourceCovered(r);
  }

  function EdgeText(e: Edge, attributes: Bytes): Bytes {
    ObjectText(MemberIf(true, "from", StringText(e.from)) + MemberIf(true, "to", StringText(e.to))
               + MemberIf(true, "type", StringText(e.edgeType))
                   + MemberIf(e.attributes != map[], "attributes", attributes))
  }

  /** The same for an edge. */
  lemma EdgeLength(e: Edge, attributes: Bytes)
    requires MapText(e.attributes, attributes)
    ensures |EdgeText(e, attributes)| == EdgeSize(e)
  {
    var a, b := MemberIf(true, "from", StringText(e.from)), MemberIf(true, "to", StringText(e.to));
    var c, d := MemberIf(true, "type", StringText(e.edgeType)),
        MemberIf(e.attributes != map[], "attributes", attributes);
    PaddedMember(true, "from", StringText(e.from));
    PaddedMember(true, "to", StringText(e.to));
    PaddedMember(true, "type", StringText(e.edgeType));
    PaddedMap("attributes", e.attributes, attributes);
    FourParts(a, b, c, d);
  }
}
