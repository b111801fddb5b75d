/** The impact projection: copying an allowlisted part of the graph while charging a
    conservative JSON size.

    `Cost` is what one projection charges; the theorems show that it bounds the JSON size of
    what was copied, that projecting twice changes nothing, and that only identifiers of the
    selected cluster remain. */
module ImpactProjection {
  import opened Options
  import opened Json

  /** A decoded object payload. A nil map and a nil slice are Nil. */
  datatype Any =
    | Nil
    | Text(bytes: Bytes)
    | Flag(flag: bool)
    | Number(digits: Bytes)
    | Object(entries: map<Bytes, Any>)
    | Array(items: seq<Any>)

  /** ImpactFieldShape */
  datatype Shape =
    | StringShape
    | PresenceShape
    | BooleanShape
    | ObjectShape(fields: seq<ShapeField>)
    | ArrayShape(element: Shape)

  datatype ShapeField = ShapeField(name: Bytes, shape: Shape)

  const Present: Bytes := Ascii("<present>")

  // ---------------------------------------------------------------------------------
  // JSON sizes

  ghost function JsonSize(a: Any): nat
    decreases a, 1
  {
    match a
    case Nil => 4
    case Text(bytes) => |StringText(bytes)|
    case Flag(flag) => if flag then 4 else 5
    case Number(digits) => |digits|
    case Object(entries) => 2 + EntriesSize(a, entries.Keys) + Separators(|entries|)
    case Array(items) => 2 + ItemsSize(items) + Separators(|items|)
  }

  function Separators(n: nat): nat {
    if n == 0 then 0 else n - 1
  }

  ghost function ItemsSize(items: seq<Any>): nat
    decreases items, 0
  {
    if items == [] then 0 else JsonSize(items[0]) + ItemsSize(items[1..])
  }

  /** Key, colon and value of one entry. */
  ghost function EntrySize(a: Any, k: Bytes): nat
    requires a.Object? && k in a.entries
  {
    |StringText(k)| + 1 + JsonSize(a.entries[k])
  }

  /** The sum over a set of keys; the order does not matter. */
  ghost function EntriesSize(a: Any, ks: set<Bytes>): nat
    requires a.Object? && ks <= a.entries.Keys
    decreases a, 0, ks
  {
    if ks == {} then 0
    else
      var k :| k in ks;
      |StringText(k)| + 1 + JsonSize(a.entries[k]) + EntriesSize(a, ks - {k})
  }

  lemma {:induction false} EntriesSplit(a: Any, ks: set<Bytes>, x: Bytes)
    requires a.Object? && ks <= a.entries.Keys && x in ks
    ensures EntriesSize(a, ks) == EntrySize(a, x) + EntriesSize(a, ks - {x})
    decreases ks
  {
    var k :| k in ks && EntriesSize(a, ks) == EntrySize(a, k) + EntriesSize(a, ks - {k});
    if k != x {
      EntriesSplit(a, ks - {k}, x);
      EntriesSplit(a, ks - {x}, k);
      assert ks - {k} - {x} == ks - {x} - {k};
    }
  }

  lemma {:induction false} EntriesDepend(a: Any, b: Any, ks: set<Bytes>)
    requires a.Object? && b.Object? && ks <= a.entries.Keys && ks <= b.entries.Keys
    requires forall k | k in ks :: a.entries[k] == b.entries[k]
    ensures EntriesSize(a, ks) == EntriesSize(b, ks)
    decreases ks
  {
    if ks != {} {
      var k :| k in ks;
      EntriesSplit(a, ks, k);
      EntriesSplit(b, ks, k);
      EntriesDepend(a, b, ks - {k});
    }
  }

  // ---------------------------------------------------------------------------------
  // Projection as a function of shape and value

  /** The shape that wins for a name: fields are written in order. */
  function LastShape(fields: seq<ShapeField>, name: Bytes): (r: Option<Shape>)
    ensures r.Some? ==> exists i | 0 <= i < |fields| :: fields[i].name == name && fields[i].shape == r.value
    ensures r.None? ==> forall i | 0 <= i < |fields| :: fields[i].name != name
    decreases |fields|
  {
    if fields == [] then None
    else if fields[|fields| - 1].name == name then Some(fields[|fields| - 1].shape)
    else LastShape(fields[..|fields| - 1], name)
  }

  /** The projected value: a value of the wrong type becomes null, never a copied payload. */
  ghost function Projected(shape: Shape, v: Any): Any
    decreases shape, 1
  {
    match shape
    case StringShape => if v.Text? then v else Nil
    case PresenceShape => if !v.Text? then Nil else if v.bytes == [] then Text([]) else Text(Present)
    case BooleanShape => if v.Flag? then v else Nil
    case ObjectShape(fields) => if v.Object? then Object(ProjectedEntries(fields, v.entries)) else Nil
    case ArrayShape(element) => if v.Array? then Array(ProjectedItems(element, v.items)) else Nil
  }

  ghost function ProjectedEntries(fields: seq<ShapeField>, entries: map<Bytes, Any>): map<Bytes, Any>
    decreases fields, 0
  {
    map n | n in entries && LastShape(fields, n).Some? :: Projected(LastShape(fields, n).value, entries[n])
  }

  ghost function ProjectedItems(element: Shape, items: seq<Any>): (r: seq<Any>)
    ensures |r| == |items|
    decreases element, 2, |items|
  {
    if items == [] then [] else [Projected(element, items[0])] + ProjectedItems(element, items[1..])
  }

  lemma LastShapeSnoc(fields: seq<ShapeField>, n: Bytes)
    requires fields != []
    ensures LastShape(fields, n)
            == if n == fields[|fields| - 1].name then Some(fields[|fields| - 1].shape)
               else LastShape(fields[..|fields| - 1], n)
  {
  }

  lemma EntriesSnoc(fields: seq<ShapeField>, entries: map<Bytes, Any>)
    requires fields != []
    ensures var last, front := fields[|fields| - 1], fields[..|fields| - 1];
            ProjectedEntries(fields, entries)
            == if last.name in entries
               then ProjectedEntries(front, entries)[last.name := Projected(last.shape, entries[last.name])]
               else ProjectedEntries(front, entries)
  {
    var last, front := fields[|fields| - 1], fields[..|fields| - 1];
    var whole, before := ProjectedEntries(fields, entries), ProjectedEntries(front, entries);
    forall n ensures n in whole <==> n in entries && (n == last.name || n in before) { LastShapeSnoc(fields, n); }
    forall n | n in whole && n != last.name ensures whole[n] == before[n] { LastShapeSnoc(fields, n); }
  }

  lemma {:induction false} ItemsAt(element: Shape, items: seq<Any>, i: nat)
    requires i < |items|
    ensures ProjectedItems(element, items)[i] == Projected(element, items[i])
  {
    if i > 0 { ItemsAt(element, items[1..], i - 1); }
  }

  lemma {:induction false} ItemsSnoc(element: Shape, items: seq<Any>, last: Any)
    ensures ProjectedItems(element, items + [last]) == ProjectedItems(element, items) + [Projected(element, last)]
  {
    if items == [] {
      assert items + [last] == [last] && [last][1..] == [];
    } else {
      assert (items + [last])[1..] == items[1..] + [last];
      ItemsSnoc(element, items[1..], last);
    }
  }

  /** Projecting what was already projected gives the same value. */
  lemma {:induction false} ProjectionIdempotent(shape: Shape, v: Any)
    ensures Projected(shape, Projected(shape, v)) == Projected(shape, v)
    decreases shape
  {
    match shape
    case ObjectShape(fields) =>
      if v.Object? {
        var once := ProjectedEntries(fields, v.entries);
        var twice := ProjectedEntries(fields, once);
        forall n | n in once ensures n in twice && twice[n] == once[n] {
          var i :| 0 <= i < |fields| && fields[i].name == n && fields[i].shape == LastShape(fields, n).value;
          ProjectionIdempotent(fields[i].shape, v.entries[n]);
        }
        assert twice == once;
      }
    case ArrayShape(element) =>
      if v.Array? {
        var once := ProjectedItems(element, v.items);
        var twice := ProjectedItems(element, once);
        forall i | 0 <= i < |once| ensures twice[i] == once[i] {
          ItemsAt(element, v.items, i);
          ItemsAt(element, once, i);
          ProjectionIdempotent(element, v.items[i]);
        }
        assert twice == once;
      }
    case _ =>
  }

  // ---------------------------------------------------------------------------------
  // What the projection depends on

  /**
   * Two values agree as far as a shape looks: the same texts and flags at its string and boolean places, texts that are
   * both empty or both not at its presence places, and the same keys among those it lists. What stands at a key it does
   * not list, which text stands at a presence place, and what a value of the wrong type holds, make no difference.
   */
  ghost predicate Alike(shape: Shape, a: Any, b: Any)
    decreases shape, 1
  {
    match shape
    case StringShape => if a.Text? || b.Text? then a == b else true
    case PresenceShape => (a.Text? <==> b.Text?) && (a.Text? ==> (a.bytes == [] <==> b.bytes == []))
    case BooleanShape => if a.Flag? || b.Flag? then a == b else true
    case ObjectShape(fields) =>
      (a.Object? <==> b.Object?) && (a.Object? ==> AlikeEntries(fields, a.entries, b.entries))
    case ArrayShape(element) =>
      && (a.Array? <==> b.Array?)
      && (a.Array? ==>
            && |a.items| == |b.items|
            && forall i | 0 <= i < |a.items| :: Alike(element, a.items[i], b.items[i]))
  }

  ghost predicate AlikeEntries(fields: seq<ShapeField>, a: map<Bytes, Any>, b: map<Bytes, Any>)
    decreases fields, 0
  {
    forall n | LastShape(fields, n).Some? ::
      (n in a <==> n in b) && (n in a ==> Alike(LastShape(fields, n).value, a[n], b[n]))
  }

  /** The projections of two values are equal exactly when the values agree as far as the shape looks: nothing else
      passes into the copy, and none of that is lost. */
  lemma {:induction false} ProjectionSeesExactlyTheShape(shape: Shape, a: Any, b: Any)
    ensures Projected(shape, a) == Projected(shape, b) <==> Alike(shape, a, b)
    decreases shape, 1
  {
    match shape
    case ObjectShape(fields) => if a.Object? && b.Object? { EntriesSeeExactly(fields, a.entries, b.entries); }
    case ArrayShape(element) => if a.Array? && b.Array? { ItemsSeeExactly(element, a.items, b.items); }
    case _ => assert Present != [];
  }

  lemma {:induction false} EntriesSeeExactly(fields: seq<ShapeField>, a: map<Bytes, Any>, b: map<Bytes, Any>)
    ensures ProjectedEntries(fields, a) == ProjectedEntries(fields, b) <==> AlikeEntries(fields, a, b)
    decreases fields, 0
  {
    var p, q := ProjectedEntries(fields, a), ProjectedEntries(fields, b);
    forall n | LastShape(fields, n).Some? && n in a && n in b
      ensures p[n] == q[n] <==> Alike(LastShape(fields, n).value, a[n], b[n])
    {
      var i :| 0 <= i < |fields| && fields[i].name == n && fields[i].shape == LastShape(fields, n).value;
      ProjectionSeesExactlyTheShape(fields[i].shape, a[n], b[n]);
    }
    if p == q {
      forall n | LastShape(fields, n).Some?
        ensures (n in a <==> n in b) && (n in a ==> Alike(LastShape(fields, n).value, a[n], b[n]))
      {
        assert n in p <==> n in q;
      }
    }
  }

  lemma {:induction false} ItemsSeeExactly(element: Shape, a: seq<Any>, b: seq<Any>)
    ensures ProjectedItems(element, a) == ProjectedItems(element, b) <==>
              |a| == |b| && forall i | 0 <= i < |a| :: Alike(element, a[i], b[i])
    decreases element, 2
  {
    var p, q := ProjectedItems(element, a), ProjectedItems(element, b);
    if |a| == |b| {
      forall i | 0 <= i < |a| ensures p[i] == q[i] <==> Alike(element, a[i], b[i]) {
        ItemsAt(element, a, i);
        ItemsAt(element, b, i);
        ProjectionSeesExactlyTheShape(element, a[i], b[i]);
      }
    }
  }

  /** At a presence place a text becomes the marker or stays empty: which text it was cannot be told. */
  lemma PresenceHidesTheText(text: Bytes)
    ensures Projected(PresenceShape, Text(text)) == Text(if text == [] then [] else Ascii("<present>"))
    ensures Projected(PresenceShape, Text(text)) != Projected(PresenceShape, Text([])) <==> text != []
  {
    assert |Present| == 9;
  }

  // ---------------------------------------------------------------------------------
  // What is charged

  /** The bytes a successful projection charges. */
  function Cost(shape: Shape, v: Any): (n: nat)
    ensures n >= 32
    decreases shape, 1
  {
    32 +
    match shape {
      case StringShape => if v.Text? then 6 * |v.bytes| else 0
      case PresenceShape => if v.Text? && v.bytes != [] then 6 * |Present| else 0
      case BooleanShape => 0
      case ObjectShape(fields) => if v.Object? then FieldsCost(fields, v.entries) else 0
      case ArrayShape(element) => if v.Array? then ItemsCost(element, v.items) else 0
    }
  }

  function FieldsCost(fields: seq<ShapeField>, entries: map<Bytes, Any>): nat
    decreases fields, 0
  {
    if fields == [] then 0
    else
      var last := fields[|fields| - 1];
      FieldsCost(fields[..|fields| - 1], entries)
      + if last.name in entries then 8 + 6 * |last.name| + Cost(last.shape, entries[last.name]) else 0
  }

  function ItemsCost(element: Shape, items: seq<Any>): nat
    decreases element, 2, |items|
  {
    if items == [] then 0 else ItemsCost(element, items[..|items| - 1]) + Cost(element, items[|items| - 1])
  }

  /** No object of the shape lists a name twice. */
  ghost predicate WellNamed(shape: Shape)
    decreases shape
  {
    match shape
    case ObjectShape(fields) =>
      && (forall i, j | 0 <= i < j < |fields| :: fields[i].name != fields[j].name)
      && forall i | 0 <= i < |fields| :: WellNamed(fields[i].shape)
    case ArrayShape(element) => WellNamed(element)
    case _ => true
  }

  /** The copy costs what the value cost: what the projection leaves out is not charged for either. */
  lemma {:induction false} CopyCostsTheSame(shape: Shape, v: Any)
    requires WellNamed(shape)
    ensures Cost(shape, Projected(shape, v)) == Cost(shape, v)
    decreases shape, 1, 0
  {
    match shape
    case PresenceShape => assert |Present| == 9;
    case ObjectShape(fields) => if v.Object? {
      assert fields[..|fields|] == fields;
      FieldsCostTheSame(fields, v.entries, |fields|);
    }
    case ArrayShape(element) => if v.Array? { ItemsCostTheSame(element, v.items); }
    case _ =>
  }

  lemma {:induction false} FieldsCostTheSame(fields: seq<ShapeField>, entries: map<Bytes, Any>, k: nat)
    requires WellNamed(ObjectShape(fields)) && k <= |fields|
    ensures FieldsCost(fields[..k], ProjectedEntries(fields, entries)) == FieldsCost(fields[..k], entries)
    decreases fields, 0, k
  {
    if k > 0 {
      var last := fields[k - 1];
      assert fields[..k][..k - 1] == fields[..k - 1];
      FieldsCostTheSame(fields, entries, k - 1);
      var shape := LastShape(fields, last.name);
      var i :| 0 <= i < |fields| && fields[i].name == last.name && fields[i].shape == shape.value;
      assert i == k - 1;
      if last.name in entries { CopyCostsTheSame(last.shape, entries[last.name]); }
    }
  }

  lemma {:induction false} ItemsCostTheSame(element: Shape, items: seq<Any>)
    requires WellNamed(element)
    ensures ItemsCost(element, ProjectedItems(element, items)) == ItemsCost(element, items)
    decreases element, 2, |items|
  {
    if items != [] {
      var n := |items| - 1;
      ItemsCostTheSame(element, items[..n]);
      CopyCostsTheSame(element, items[n]);
      ItemsSnoc(element, items[..n], items[n]);
      assert items == items[..n] + [items[n]];
    }
  }

  /** Values that are alike under a shape cost the same: not even the charge tells more than the shape shows. */
  lemma AlikeCostTheSame(shape: Shape, a: Any, b: Any)
    requires WellNamed(shape) && Alike(shape, a, b)
    ensures Cost(shape, a) == Cost(shape, b)
  {
    ProjectionSeesExactlyTheShape(shape, a, b);
    CopyCostsTheSame(shape, a);
    CopyCostsTheSame(shape, b);
  }

  /** The charge covers the JSON text of the projection and a separator after it. */
  lemma {:induction false} ChargeCovers(shape: Shape, v: Any)
    ensures JsonSize(Projected(shape, v)) + 1 <= Cost(shape, v)
    decreases shape, 1
  {
    match shape
    case ObjectShape(fields) => if v.Object? { FieldsCovered(fields, v.entries); }
    case ArrayShape(element) => if v.Array? { ItemsCovered(element, v.items); }
    case _ =>
  }

  lemma {:induction false} FieldsCovered(fields: seq<ShapeField>, entries: map<Bytes, Any>)
    ensures var p := Object(ProjectedEntries(fields, entries));
            EntriesSize(p, p.entries.Keys) + |p.entries| <= FieldsCost(fields, entries)
    decreases fields, 0
  {
    var p := Object(ProjectedEntries(fields, entries));
    if fields == [] {
      assert p.entries == map[];
    } else {
      var last, front := fields[|fields| - 1], fields[..|fields| - 1];
      var q := Object(ProjectedEntries(front, entries));
      FieldsCovered(front, entries);
      EntriesSnoc(fields, entries);
      if last.name in entries {
        ChargeCovers(last.shape, entries[last.name]);
        EntriesOverwritten(q, last.name, Projected(last.shape, entries[last.name]));
      }
    }
  }

  /** Writing one key adds at most its own entry. */
  lemma EntriesOverwritten(q: Any, name: Bytes, value: Any)
    requires q.Object?
    ensures var p := Object(q.entries[name := value]);
            && EntriesSize(p, p.entries.Keys) <= EntriesSize(q, q.entries.Keys) + |StringText(name)| + 1
               + JsonSize(value)
            && |p.entries| <= |q.entries| + 1
  {
    var p := Object(q.entries[name := value]);
    var rest := q.entries.Keys - {name};
    assert p.entries.Keys - {name} == rest;
    assert p.entries.Keys == q.entries.Keys + {name};
    EntriesSplit(p, p.entries.Keys, name);
    EntriesDepend(p, q, rest);
    if name in q.entries {
      EntriesSplit(q, q.entries.Keys, name);
    } else {
      assert rest == q.entries.Keys;
    }
    assert |p.entries.Keys| == |p.entries| && |q.entries.Keys| == |q.entries|;
  }

  lemma {:induction false} ItemsCovered(element: Shape, items: seq<Any>)
    ensures ItemsSize(ProjectedItems(element, items)) + |items| <= ItemsCost(element, items)
    decreases element, 2, |items|
  {
    if items != [] {
      var front, last := items[..|items| - 1], items[|items| - 1];
      assert items == front + [last];
      ItemsCovered(element, front);
      ItemsSnoc(element, front, last);
      ChargeCovers(element, last);
      ItemsSizeSnoc(ProjectedItems(element, front), Projected(element, last));
    }
  }

  lemma {:induction false} ItemsSizeSnoc(items: seq<Any>, last: Any)
    ensures ItemsSize(items + [last]) == ItemsSize(items) + JsonSize(last)
  {
    if items == [] {
      assert items + [last] == [last] && [last][1..] == [];
    } else {
      assert (items + [last])[1..] == items[1..] + [last];
      ItemsSizeSnoc(items[1..], last);
    }
  }
}
