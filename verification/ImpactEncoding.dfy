/** The preflight that measures the JSON size of an impact response before marshalling it. */
module ImpactEncoding {
  import opened Options
  import opened Json
  import opened Contexts
  import opened EncodingModel
  import opened EncodingExact
  import opened EncodingReads
  import opened JsonReader
  import opened ResponseSchema

  // ---------------------------------------------------------------------------------
  // The preflight itself

  datatype Verdict = Ok | Limit | BadShape | Cancelled

  /** The remaining byte budget, shared by the whole recursion. */
  class Budget {
    var remaining: int

    constructor (maxBytes: int)
      ensures remaining == maxBytes
    {
      remaining := maxBytes;
    }

    method Charge(n: nat) returns (ok: bool)
      modifies this
      ensures ok == (n <= old(remaining))
      ensures remaining == if ok then old(remaining) - n else old(remaining)
    {
      if n > remaining { return false; }
      remaining := remaining - n;
      return true;
    }
  }

  /** What the verdict says about a value and the budget it started with. */
  ghost predicate Judged(v: Value, before: int, after: int, r: Verdict) {
    match r
    case Ok => Accepts(v) && |Measured(v)| <= before && after == before - |Measured(v)|
    case Limit => Accepts(v) ==> |Measured(v)| > before
    case BadShape => !Accepts(v)
    case Cancelled => true
  }

  lemma JoinSplits(a: seq<Bytes>, x: Bytes, rest: seq<Bytes>)
    ensures |Join(a + [x] + rest)| >= |Join(a)| + (if a == [] then 0 else 1) + |x|
    ensures |Join(a + [x])| == |Join(a)| + (if a == [] then 0 else 1) + |x|
  {
    JoinLength(a);
    JoinLength(a + [x]);
    JoinLength(a + [x] + rest);
    TotalLengthAppends(a, [x]);
    TotalLengthAppends(a + [x], rest);
    assert [x][1..] == [];
    assert TotalLength([x]) == |x|;
  }

  lemma {:induction false} MeasuredItemsAppend(a: seq<Value>, b: seq<Value>)
    ensures MeasuredItems(a + b) == MeasuredItems(a) + MeasuredItems(b)
    decreases |a|
  {
    if a == [] {
      assert a + b == b;
    } else {
      assert (a + b)[1..] == a[1..] + b;
      MeasuredItemsAppend(a[1..], b);
    }
  }

  /** Item `i` adds itself and, unless it is the first, a comma. */
  lemma ItemCost(items: seq<Value>, i: nat)
    requires i < |items|
    ensures |Join(MeasuredItems(items[..i + 1]))|
              == |Join(MeasuredItems(items[..i]))| + (if i == 0 then 0 else 1) + |Measured(items[i])|
    ensures |Join(MeasuredItems(items))| >= |Join(MeasuredItems(items[..i + 1]))|
  {
    var a, x, rest := MeasuredItems(items[..i]), Measured(items[i]), MeasuredItems(items[i + 1..]);
    assert items[..i + 1] == items[..i] + [items[i]];
    assert items == items[..i + 1] + items[i + 1..];
    MeasuredItemsAppend(items[..i], [items[i]]);
    MeasuredItemsAppend(items[..i + 1], items[i + 1..]);
    assert [items[i]][1..] == [];
    assert MeasuredItems([items[i]]) == [x];
    MeasuredItemsCount(items[..i]);
    JoinSplits(a, x, rest);
    JoinLength(a + [x]);
  }

  lemma {:induction false} MeasuredItemsCount(items: seq<Value>)
    ensures |MeasuredItems(items)| == |items|
    decreases |items|
  {
    if items != [] { MeasuredItemsCount(items[1..]); }
  }

  /** Member `i`, unless omitted, adds its key, a colon, its value and a comma after earlier ones. */
  lemma MemberCost(ms: seq<Member>, i: nat)
    requires i < |ms|
    ensures Omitted(ms[i]) ==> MeasuredMembers(ms[..i + 1]) == MeasuredMembers(ms[..i])
    ensures !Omitted(ms[i]) ==> MeasuredMembers(ms[..i + 1]) != []
    ensures !Omitted(ms[i]) ==>
              |Join(MeasuredMembers(ms[..i + 1]))|
              == |Join(MeasuredMembers(ms[..i]))| + (if MeasuredMembers(ms[..i]) == [] then 0 else 1)
                 + |StringText(ms[i].name)| + 1 + |Measured(ms[i].value)|
    ensures |Join(MeasuredMembers(ms))| >= |Join(MeasuredMembers(ms[..i + 1]))|
  {
    var a, rest := MeasuredMembers(ms[..i]), MeasuredMembers(ms[i + 1..]);
    var x := StringText(ms[i].name) + Colon + Measured(ms[i].value);
    assert ms[..i + 1] == ms[..i] + [ms[i]];
    assert ms == ms[..i + 1] + ms[i + 1..];
    MeasuredMembersAppend(ms[..i], [ms[i]]);
    MeasuredMembersAppend(ms[..i + 1], ms[i + 1..]);
    assert [ms[i]][1..] == [];
    assert MeasuredMembers([]) == [];
    assert MeasuredMembers([ms[i]]) == if Omitted(ms[i]) then [] else [x];
    if Omitted(ms[i]) {
      assert a + [] == a;
      JoinLength(a);
      JoinLength(a + rest);
      TotalLengthAppends(a, rest);
    } else {
      JoinSplits(a, x, rest);
      JoinLength(a + [x]);
      JoinLength(a + [x] + rest);
      TotalLengthAppends(a + [x], rest);
    }
  }

  /** impactJSONFields: the flattened list, or nothing for an ambiguous or unsupported schema. */
  method FieldList(fields: seq<Field>) returns (list: Option<seq<Member>>)
    ensures list.Some? <==> SchemaOk(fields)
    ensures list.Some? ==> list.value == Flat(fields)
  {
    var ok, ms, _ := Walk(fields, [], {});
    assert [] + Flat(fields) == Flat(fields);
    return if ok then Some(ms) else None;
  }

  ghost function Names(ms: seq<Member>): set<Bytes> {
    set m | m in ms :: m.name
  }

  lemma NamesAppend(ms: seq<Member>, m: Member)
    ensures Names(ms + [m]) == Names(ms) + {m.name}
    ensures DistinctNames(ms) ==> (DistinctNames(ms + [m]) <==> m.name !in Names(ms))
  {
    assert m in ms + [m];
    forall n ensures n in Names(ms + [m]) <==> n in Names(ms) + {m.name} {
      if n in Names(ms) {
        var k :| k in ms && k.name == n;
        assert k in ms + [m];
      }
    }
    if m.name in Names(ms) {
      var k :| k in ms && k.name == m.name;
      var i :| 0 <= i < |ms| && ms[i] == k;
      assert (ms + [m])[i].name == (ms + [m])[|ms|].name;
    } else if DistinctNames(ms) {
      forall i, j | 0 <= i < j < |ms + [m]| ensures (ms + [m])[i].name != (ms + [m])[j].name {
        if j == |ms| { assert ms[i] in ms; }
      }
    }
  }

  lemma PrefixDistinct(a: seq<Member>, b: seq<Member>)
    requires DistinctNames(a + b)
    ensures DistinctNames(a)
  {
    forall i, j | 0 <= i < j < |a| ensures a[i].name != a[j].name {
      assert (a + b)[i] == a[i] && (a + b)[j] == a[j];
    }
  }

  /** The recursive walk: names seen so far and fields found so far are threaded through. */
  method Walk(fields: seq<Field>, found: seq<Member>, seen: set<Bytes>)
    returns (ok: bool, ms: seq<Member>, names: set<Bytes>)
    requires seen == Names(found) && DistinctNames(found)
    ensures ok <==> OptionsOk(fields) && DistinctNames(found + Flat(fields))
    ensures ok ==> ms == found + Flat(fields) && names == Names(ms)
    decreases fields
  {
    ok, ms, names := true, found, seen;
    if fields == [] {
      assert found + Flat(fields) == found;
      return;
    }
    var f := fields[0];
    ghost var head := FlatHead(f);
    assert found + Flat(fields) == (found + head) + Flat(fields[1..]);
    if Skipped(f) {
      assert found + head == found;
    } else if Embedded(f) {
      ok, ms, names := Walk(f.value.fields, found, seen);
    } else {
      NamesAppend(found, MemberOf(f));
      var name := MemberOf(f).name;
      if name in seen {
        ok := false;
      } else if f.options != [] && f.options != [OmitEmpty] {
        ok := false;
      } else {
        ms, names := found + [MemberOf(f)], seen + {name};
      }
    }
    if !ok {
      if DistinctNames(found + Flat(fields)) { PrefixDistinct(found + head, Flat(fields[1..])); }
      return;
    }
    ok, ms, names := Walk(fields[1..], ms, names);
  }

  /** measureImpactJSON */
  method Measure(ctx: Context, v: Value, budget: Budget) returns (r: Verdict)
    modifies ctx, budget
    ensures Judged(v, old(budget.remaining), budget.remaining, r)
    ensures r == Cancelled ==> ctx.deadline.Some?
    decreases Height(v), 1
  {
    var cancelled := ctx.Err();
    if cancelled { return Cancelled; }
    match v
    case NilPointer =>
      r := ChargeText(budget, 4);
    case NilStruct(_) =>
      r := ChargeText(budget, 4);
    case Pointer(target) =>
      r := Measure(ctx, target, budget);
    case TimeValue(stamp) =>
      if stamp.None? { return BadShape; }
      r := ChargeText(budget, |StringText(stamp.value)|);
    case Opaque(_, _, _) =>
      r := BadShape;
    case OwnText(_, plain) =>
      r := Measure(ctx, plain, budget);
    case Str(bytes) =>
      // The raw length is checked before the string is escaped.
      if |bytes| + 2 > budget.remaining { return Limit; }
      r := ChargeText(budget, |StringText(bytes)|);
    case Boolean(flag) =>
      r := ChargeText(budget, if flag then 4 else 5);
    case Signed(i) =>
      r := ChargeText(budget, |IntText(i)|);
    case Unsigned(u) =>
      r := ChargeText(budget, |IntText(u)|);
    case NilSlice =>
      r := ChargeText(budget, 4);
    case Slice(items) =>
      r := MeasureSlice(ctx, items, budget);
    case Struct(fields) =>
      r := MeasureStruct(ctx, fields, budget);
  }

  method ChargeText(budget: Budget, n: nat) returns (r: Verdict)
    modifies budget
    ensures r == if n <= old(budget.remaining) then Ok else Limit
    ensures r == Ok ==> budget.remaining == old(budget.remaining) - n
  {
    var ok := budget.Charge(n);
    r := if ok then Ok else Limit;
  }

  /** An item behind its comma. */
  method MeasureItem(ctx: Context, first: bool, v: Value, budget: Budget) returns (r: Verdict)
    requires budget.remaining >= 0
    modifies ctx, budget
    ensures Judged(v, old(budget.remaining) - (if first then 0 else 1), budget.remaining, r)
    ensures r == Cancelled ==> ctx.deadline.Some?
    decreases Height(v), 2
  {
    if !first {
      var ok := budget.Charge(1);
      if !ok { return Limit; }
    }
    r := Measure(ctx, v, budget);
  }

  /** A member behind its comma, key and colon. */
  method MeasureMember(ctx: Context, first: bool, m: Member, budget: Budget) returns (r: Verdict)
    requires budget.remaining >= 0
    modifies ctx, budget
    ensures Judged(m.value, old(budget.remaining) - ((if first then 0 else 1) + |StringText(m.name)| + 1),
                   budget.remaining, r)
    ensures r == Cancelled ==> ctx.deadline.Some?
    decreases Height(m.value), 2
  {
    if !first {
      var ok := budget.Charge(1);
      if !ok { return Limit; }
    }
    var key := StringText(m.name);
    var ok := budget.Charge(|key| + 1);
    if !ok { return Limit; }
    r := Measure(ctx, m.value, budget);
  }

  method MeasureSlice(ctx: Context, items: seq<Value>, budget: Budget) returns (r: Verdict)
    modifies ctx, budget
    ensures Judged(Slice(items), old(budget.remaining), budget.remaining, r)
    ensures r == Cancelled ==> ctx.deadline.Some?
    decreases Height(Slice(items)), 0
  {
    ghost var start := budget.remaining;
    var ok := budget.Charge(2);
    if !ok { return Limit; }
    var i := 0;
    while i < |items|
      invariant 0 <= i <= |items|
      invariant budget.remaining == start - 2 - |Join(MeasuredItems(items[..i]))|
      invariant budget.remaining >= 0
      invariant forall j | 0 <= j < i :: Accepts(items[j])
    {
      ItemCost(items, i);
      r := MeasureItem(ctx, i == 0, items[i], budget);
      if r != Ok { return; }
      i := i + 1;
    }
    assert items[..i] == items;
    r := Ok;
  }

  method MeasureStruct(ctx: Context, fields: seq<Field>, budget: Budget) returns (r: Verdict)
    modifies ctx, budget
    ensures Judged(Struct(fields), old(budget.remaining), budget.remaining, r)
    ensures r == Cancelled ==> ctx.deadline.Some?
    decreases Height(Struct(fields)), 0
  {
    ghost var start := budget.remaining;
    var ok := budget.Charge(2);
    if !ok { return Limit; }
    var list := FieldList(fields);
    if list.None? { return BadShape; }
    r := MeasureMembers(ctx, list.value, budget, Height(Struct(fields)));
  }

  method MeasureMembers(ctx: Context, ms: seq<Member>, budget: Budget, ghost bound: nat) returns (r: Verdict)
    requires forall m | m in ms :: Height(m.value) < bound
    requires budget.remaining >= 0
    modifies ctx, budget
    ensures r == Ok ==> && (forall m | m in ms && !Omitted(m) :: Accepts(m.value))
                        && |Join(MeasuredMembers(ms))| <= old(budget.remaining)
                        && budget.remaining == old(budget.remaining) - |Join(MeasuredMembers(ms))|
    ensures r == Limit ==> (forall m | m in ms && !Omitted(m) :: Accepts(m.value)) ==>
              |Join(MeasuredMembers(ms))| > old(budget.remaining)
    ensures r == BadShape ==> exists m | m in ms && !Omitted(m) :: !Accepts(m.value)
    ensures r == Cancelled ==> ctx.deadline.Some?
    decreases bound - 1, 3
  {
    ghost var start := budget.remaining;
    var first := true;
    var i := 0;
    while i < |ms|
      invariant 0 <= i <= |ms|
      invariant first == (MeasuredMembers(ms[..i]) == [])
      invariant budget.remaining == start - |Join(MeasuredMembers(ms[..i]))| >= 0
      invariant forall j | 0 <= j < i && !Omitted(ms[j]) :: Accepts(ms[j].value)
    {
      MemberCost(ms, i);
      if !Omitted(ms[i]) {
        assert ms[i] in ms;
        r := MeasureMember(ctx, first, ms[i], budget);
        first := false;
        if r != Ok { return; }
      }
      i := i + 1;
    }
    assert ms[..i] == ms;
    r := Ok;
  }

  /** json.Marshal */
  method Marshal(v: Value) returns (text: Option<Bytes>)
    ensures text == if Marshals(v) then Some(Encoding(v)) else None
  {
    var ok := CanMarshal(v);
    return if ok then Some(Encoding(v)) else None;
  }

  method CanMarshal(v: Value) returns (ok: bool)
    ensures ok == Marshals(v)
    decreases Height(v), 1
  {
    match v
    case Pointer(target) => ok := CanMarshal(target);
    case TimeValue(stamp) => ok := stamp.Some?;
    case Opaque(text, _, _) => ok := text.Some?;
    case Slice(items) => ok := CanMarshalAll(items, Height(v));
    case Struct(fields) => ok := CanMarshalEntries(Winners(fields), Height(v));
    case _ => ok := true;
  }

  method CanMarshalAll(items: seq<Value>, ghost bound: nat) returns (ok: bool)
    requires ItemsHeight(items) < bound
    ensures ok <==> forall i | 0 <= i < |items| :: Marshals(items[i])
    decreases bound, 0
  {
    for i := 0 to |items|
      invariant forall j | 0 <= j < i :: Marshals(items[j])
    {
      var good := CanMarshal(items[i]);
      if !good { return false; }
    }
    return true;
  }

  method CanMarshalEntries(es: seq<Entry>, ghost bound: nat) returns (ok: bool)
    requires forall e | e in es :: Height(e.value) < bound
    ensures ok <==> forall e | e in es && Written(e) :: Marshals(e.value)
    decreases bound, 0
  {
    for i := 0 to |es|
      invariant forall j | 0 <= j < i && Written(es[j]) :: Marshals(es[j].value)
    {
      if Written(es[i]) {
        assert es[i] in es;
        var good := CanMarshal(es[i].value);
        if !good { return false; }
      }
    }
    return true;
  }

  /** encodeImpactResponse: measure, marshal, and check the size once more. `late` says that the second
      check refused. */
  method EncodeResponse(ctx: Context, response: Value, maxBytes: int) returns (r: Verdict, body: Bytes, late: bool)
    modifies ctx
    ensures r == Ok ==> Accepts(response) && Marshals(response) && body == Encoding(response) && |body| <= maxBytes
    ensures r == Ok && Readable(response) ==> ReadValue(body) == Some((TreeOf(response), []))
    ensures r == Limit && Accepts(response) && Plain(response) ==> |Encoding(response)| > maxBytes
    ensures late ==> r == Limit && Accepts(response) && |Measured(response)| <= maxBytes < |Encoding(response)|
    ensures late && Plain(response) ==> !Quiet(response)
    ensures r == BadShape ==> !Accepts(response) || !Marshals(response)
    ensures r == Cancelled ==> ctx.deadline.Some?
  {
    body, late := [], false;
    var budget := new Budget(maxBytes);
    r := Measure(ctx, response, budget);
    if Accepts(response) && Plain(response) { MeasuredIsEncodingExactlyWhenQuiet(response); }
    if r != Ok { return; }
    var cancelled := ctx.Err();
    if cancelled { return Cancelled, [], false; }
    var text := Marshal(response);
    if text.None? { return BadShape, [], false; }
    cancelled := ctx.Err();
    if cancelled { return Cancelled, [], false; }
    if |text.value| > maxBytes { return Limit, [], true; }
    body := text.value;
    if Readable(response) {
      EncodingReadsBack(response);
      assert body + [] == body;
    }
  }

  /** On values of a regular type the outcome depends on the size alone: no bad shape, no late refusal, and the
      limit is reported exactly for what would not fit. */
  method EncodeTyped(ctx: Context, response: Value, maxBytes: int, ghost t: Type) returns (r: Verdict, body: Bytes)
    requires HasType(response, t) && Regular(t)
    modifies ctx
    ensures r == Ok ==> |body| <= maxBytes && ReadValue(body) == Some((TreeOf(response), []))
    ensures r == Ok ==> body == Encoding(response)
    ensures r == Limit ==> |Encoding(response)| > maxBytes
    ensures r != BadShape
    ensures r == Cancelled ==> ctx.deadline.Some?
  {
    RegularIsMeasuredExactly(response, t);
    var late;
    r, body, late := EncodeResponse(ctx, response, maxBytes);
  }
}
