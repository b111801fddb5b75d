/** When the preflight measures exactly what encoding/json writes, and where the two differ. */
module EncodingExact {
  import opened Options
  import opened Json
  import opened EncodingModel

  /** Declarations both read alike: every tag name is valid, and only structs are embedded, not pointers to them. */
  predicate Tidy(fields: seq<Field>)
    decreases fields
  {
    fields == [] ||
    (var f := fields[0];
     && (JsonSkipped(f) ||
         ((f.tagName == [] || f.validTag)
          && (f.anonymous && f.tagName == [] && StructType(f.value) ==> f.value.Struct? && Tidy(f.value.fields))))
     && Tidy(fields[1..]))
  }

  ghost predicate DistinctEntries(es: seq<Entry>) {
    forall i, j | 0 <= i < j < |es| :: es[i].name != es[j].name
  }

  /** A condition on types: tidy declarations, no two fields of a struct with one name (unmeasured
      ones included), and no type with a text of its own, wherever the preflight looks. */
  ghost predicate Plain(v: Value)
    decreases Height(v)
  {
    match v
    case Pointer(target) => Plain(target)
    case OwnText(_, _) => false
    case Slice(items) => forall i | 0 <= i < |items| :: Plain(items[i])
    case Struct(fields) =>
      && Tidy(fields) && DistinctEntries(JsonFields(fields, 0, true, true))
      && forall m | m in Flat(fields) && !Omitted(m) :: Plain(m.value)
    case _ => true
  }

  /** Nothing is written by the fields the preflight passes over: those of unexported embedded
      structs, and those named "-" by a tag with options. */
  ghost predicate Quiet(v: Value)
    decreases Height(v)
  {
    match v
    case Pointer(target) => Quiet(target)
    case Slice(items) => forall i | 0 <= i < |items| :: Quiet(items[i])
    case Struct(fields) =>
      && Silent(JsonFields(fields, 0, true, true))
      && forall m | m in Flat(fields) && !Omitted(m) :: Quiet(m.value)
    case _ => true
  }

  ghost predicate Silent(es: seq<Entry>) {
    forall e | e in es && !e.measured :: !Written(e)
  }

  /** Entries at any depth; the depth matters only between entries of one name. */
  ghost predicate QuietFields(fields: seq<Field>, depth: nat) {
    Silent(JsonFields(fields, depth, true, true)) && forall m | m in Flat(fields) && !Omitted(m) :: Quiet(m.value)
  }

  // ---------------------------------------------------------------------------------
  // Lists of texts

  /** What is proved of the texts `ms` the preflight measures and the texts `es` that are written. */
  ghost predicate Within(ms: seq<Bytes>, es: seq<Bytes>, exact: bool) {
    && |ms| <= |es| && TotalLength(ms) <= TotalLength(es)
    && (exact ==> ms == es) && (!exact ==> TotalLength(ms) < TotalLength(es))
  }

  lemma WithinAppends(a: seq<Bytes>, b: seq<Bytes>, exact: bool, c: seq<Bytes>, d: seq<Bytes>, also: bool)
    requires Within(a, b, exact) && Within(c, d, also)
    ensures Within(a + c, b + d, exact && also)
  {
    TotalLengthAppends(a, c);
    TotalLengthAppends(b, d);
  }

  lemma WithinJoined(a: seq<Bytes>, b: seq<Bytes>, exact: bool)
    requires Within(a, b, exact)
    ensures |Join(a)| <= |Join(b)| && (exact ==> Join(a) == Join(b)) && (!exact ==> |Join(a)| < |Join(b)|)
  {
    JoinLength(a);
    JoinLength(b);
  }

  lemma {:induction false} TextsAppend(a: seq<Entry>, b: seq<Entry>, h: nat)
    requires forall e | e in a + b :: Height(e.value) < h
    ensures (forall e | e in a :: Height(e.value) < h) && forall e | e in b :: Height(e.value) < h
    ensures EntryTexts(a + b, h) == EntryTexts(a, h) + EntryTexts(b, h)
    decreases |a|
  {
    forall e | e in a || e in b ensures Height(e.value) < h { assert e in a + b; }
    if a == [] {
      assert a + b == b;
    } else {
      assert (a + b)[1..] == a[1..] + b && (a + b)[0] == a[0];
      forall e | e in a[1..] + b ensures Height(e.value) < h { assert e in a + b; }
      TextsAppend(a[1..], b, h);
      assert EntryTexts(a + b, h) == EntryText(a[0], h) + (EntryTexts(a[1..], h) + EntryTexts(b, h));
    }
  }

  lemma OneOrNone(e: Entry, h: nat)
    requires Height(e.value) < h
    ensures Within([], EntryText(e, h), !Written(e))
  {
    if Written(e) {
      var text: Bytes := StringText(e.name) + Colon + Encoding(e.value);
      assert [text][1..] == [];
      assert TotalLength([text]) == |text|;
    }
  }

  /** Fields the preflight passes over add texts exactly when one of them is written. */
  lemma {:induction false} PassedOver(es: seq<Entry>, h: nat)
    requires forall e | e in es :: Height(e.value) < h && !e.measured
    ensures Within([], EntryTexts(es, h), Silent(es))
  {
    if es != [] {
      PassedOver(es[1..], h);
      var none: seq<Bytes> := [];
      assert none + none == none;
      assert Within(none, EntryText(es[0], h), !Written(es[0])) by { OneOrNone(es[0], h); }
      WithinAppends([], EntryText(es[0], h), !Written(es[0]), [], EntryTexts(es[1..], h), Silent(es[1..]));
      assert Silent(es) <==> !Written(es[0]) && Silent(es[1..]) by {
        assert es == [es[0]] + es[1..];
        assert es[0] in es;
      }
    }
  }

  lemma {:induction false} UnmeasuredStay(fields: seq<Field>, depth: nat, present: bool)
    ensures forall e | e in JsonFields(fields, depth, present, false) :: !e.measured
    decreases fields, 0
  {
    if fields != [] {
      UnmeasuredHead(fields[0], depth, present);
      UnmeasuredStay(fields[1..], depth, present);
    }
  }

  lemma {:induction false} UnmeasuredHead(f: Field, depth: nat, present: bool)
    ensures forall e | e in JsonHead(f, depth, present, false) :: !e.measured
    decreases f, 1
  {
    if !JsonSkipped(f) && JsonEmbedded(f) {
      UnmeasuredStay(Promoted(f.value), depth + 1, present && !f.value.NilStruct?);
    }
  }

  // ---------------------------------------------------------------------------------
  // The comparison

  /**
   * For accepted values of plain types: the measured text is never longer than the written one, it
   * is the written one exactly when the value is quiet, and strictly shorter otherwise.
   */
  lemma {:induction false} MeasuredIsEncodingExactlyWhenQuiet(v: Value)
    requires Accepts(v) && Plain(v)
    ensures |Measured(v)| <= |Encoding(v)|
    ensures Measured(v) == Encoding(v) <==> Quiet(v)
    ensures !Quiet(v) ==> |Measured(v)| < |Encoding(v)|
    decreases Height(v), 1, 0
  {
    match v
    case Pointer(target) => MeasuredIsEncodingExactlyWhenQuiet(target);
    case Slice(items) =>
      ItemsCompare(items, Height(v));
      WithinJoined(MeasuredItems(items), ItemEncodings(items, Height(v)), Quiet(v));
    case Struct(fields) => StructCompares(fields);
    case _ =>
  }

  ghost predicate QuietItems(items: seq<Value>) {
    forall i | 0 <= i < |items| :: Quiet(items[i])
  }

  lemma QuietItemsStep(items: seq<Value>)
    requires items != []
    ensures QuietItems(items) <==> Quiet(items[0]) && QuietItems(items[1..])
  {
    assert forall i | 0 <= i < |items[1..]| :: items[1..][i] == items[i + 1];
  }

  lemma {:induction false} ItemsCompare(items: seq<Value>, h: nat)
    requires ItemsHeight(items) < h && forall i | 0 <= i < |items| :: Plain(items[i]) && Accepts(items[i])
    ensures Within(MeasuredItems(items), ItemEncodings(items, h), QuietItems(items))
    decreases h, 0, |items|
  {
    if items != [] {
      var first, rest := items[0], items[1..];
      MeasuredIsEncodingExactlyWhenQuiet(first);
      ItemsCompare(rest, h);
      OneText(Measured(first), Encoding(first), Quiet(first));
      WithinAppends([Measured(first)], [Encoding(first)], Quiet(first), MeasuredItems(rest), ItemEncodings(rest, h),
          QuietItems(rest));
      QuietItemsStep(items);
    }
  }

  lemma OneText(a: Bytes, b: Bytes, exact: bool)
    requires |a| <= |b| && (exact ==> a == b) && (!exact ==> |a| < |b|)
    ensures Within([a], [b], exact)
  {
    assert [a][1..] == [] && [b][1..] == [];
  }

  lemma StructCompares(fields: seq<Field>)
    requires Accepts(Struct(fields)) && Plain(Struct(fields))
    ensures var v := Struct(fields);
            && |Measured(v)| <= |Encoding(v)| && (Measured(v) == Encoding(v) <==> Quiet(v))
            && (!Quiet(v) ==> |Measured(v)| < |Encoding(v)|)
    decreases Height(Struct(fields)), 0, fields, 2
  {
    var v, all := Struct(fields), JsonFields(fields, 0, true, true);
    FieldsCompare(fields, 0, Height(v));
    AllWin(all, 0);
    assert all[0..] == all;
    WithinJoined(MeasuredMembers(Flat(fields)), EntryTexts(all, Height(v)), Quiet(v));
  }

  lemma {:induction false} AllWin(all: seq<Entry>, i: nat)
    requires DistinctEntries(all) && i <= |all|
    ensures Dominant(all, i) == all[i..]
    decreases |all| - i
  {
    if i < |all| { AllWin(all, i + 1); }
  }

  lemma {:induction false} FieldsCompare(fields: seq<Field>, depth: nat, h: nat)
    requires Tidy(fields) && OptionsOk(fields) && FieldsHeight(fields) < h
    requires forall m | m in Flat(fields) && !Omitted(m) :: Accepts(m.value) && Plain(m.value)
    ensures Within(MeasuredMembers(Flat(fields)), EntryTexts(JsonFields(fields, depth, true, true), h),
              QuietFields(fields, depth))
    decreases h, 0, fields, 0
  {
    if fields != [] {
      var f, rest := fields[0], fields[1..];
      HeadCompares(f, depth, h);
      FieldsCompare(rest, depth, h);
      MeasuredMembersAppend(FlatHead(f), Flat(rest));
      TextsAppend(JsonHead(f, depth, true, true), JsonFields(rest, depth, true, true), h);
      WithinAppends(MeasuredMembers(FlatHead(f)), EntryTexts(JsonHead(f, depth, true, true), h), QuietHead(f, depth),
                    MeasuredMembers(Flat(rest)), EntryTexts(JsonFields(rest, depth, true, true), h),
                    QuietFields(rest, depth));
      QuietFieldsCons(f, rest, depth);
      assert fields == [f] + rest;
    }
  }

  lemma QuietFieldsCons(f: Field, rest: seq<Field>, depth: nat)
    ensures QuietFields([f] + rest, depth) <==> QuietHead(f, depth) && QuietFields(rest, depth)
  {
    assert ([f] + rest)[1..] == rest;
    assert Flat([f] + rest) == FlatHead(f) + Flat(rest);
    assert JsonFields([f] + rest, depth, true, true)
           == JsonHead(f, depth, true, true) + JsonFields(rest, depth, true, true);
  }

  ghost predicate QuietHead(f: Field, depth: nat) {
    Silent(JsonHead(f, depth, true, true)) && forall m | m in FlatHead(f) && !Omitted(m) :: Quiet(m.value)
  }

  lemma {:induction false} HeadCompares(f: Field, depth: nat, h: nat)
    requires Tidy([f]) && OptionsOk([f]) && Height(f.value) < h
    requires forall m | m in FlatHead(f) && !Omitted(m) :: Accepts(m.value) && Plain(m.value)
    ensures Within(MeasuredMembers(FlatHead(f)), EntryTexts(JsonHead(f, depth, true, true), h), QuietHead(f, depth))
    decreases h, 0, f, 1
  {
    if JsonSkipped(f) {
    } else if Skipped(f) {
      UnmeasuredSkipped(f, depth);
      PassedOver(JsonHead(f, depth, true, true), h);
    } else if Embedded(f) {
      FieldsCompare(f.value.fields, depth + 1, h);
    } else {
      MemberCompares(f, depth, h);
    }
  }

  lemma UnmeasuredSkipped(f: Field, depth: nat)
    requires Skipped(f)
    ensures forall e | e in JsonHead(f, depth, true, true) :: !e.measured
  {
    if !JsonSkipped(f) && JsonEmbedded(f) { UnmeasuredStay(Promoted(f.value), depth + 1, !f.value.NilStruct?); }
  }

  lemma MemberCompares(f: Field, depth: nat, h: nat)
    requires !Skipped(f) && !Embedded(f) && Tidy([f]) && OptionsOk([f]) && Height(f.value) < h
    requires !Omitted(MemberOf(f)) ==> Accepts(f.value) && Plain(f.value)
    ensures Within(MeasuredMembers([MemberOf(f)]), EntryTexts([EntryOf(f, depth, true, true)], h),
              !Omitted(MemberOf(f)) ==> Quiet(f.value))
    decreases h, 0, f, 0
  {
    var m, e := MemberOf(f), EntryOf(f, depth, true, true);
    assert [m][1..] == [] && [e][1..] == [];
    assert e.name == m.name && e.omitEmpty == m.omitEmpty;
    if !Omitted(m) {
      MeasuredIsEncodingExactlyWhenQuiet(f.value);
      assert Written(e);
      OneText(StringText(m.name) + Colon + Measured(f.value), StringText(m.name) + Colon + Encoding(f.value),
              Quiet(f.value));
    }
  }

  // ---------------------------------------------------------------------------------
  // Types whose values are always quiet

  /** Whatever the preflight passes over, encoding/json skips too: no unexported embedded struct and no
      name "-" from a tag with options. */
  predicate Open(fields: seq<Field>)
    decreases fields
  {
    fields == [] ||
    (var f := fields[0];
     && (Skipped(f) ==> JsonSkipped(f)) && (!Skipped(f) && JsonEmbedded(f) ==> Open(Promoted(f.value)))
     && Open(fields[1..]))
  }

  /** A condition on types: every struct the preflight looks into is open. */
  ghost predicate AllOpen(v: Value)
    decreases Height(v)
  {
    match v
    case Pointer(target) => AllOpen(target)
    case Slice(items) => forall i | 0 <= i < |items| :: AllOpen(items[i])
    case Struct(fields) => Open(fields) && forall m | m in Flat(fields) && !Omitted(m) :: AllOpen(m.value)
    case _ => true
  }

  lemma {:induction false} OpenFieldsMeasured(fields: seq<Field>, depth: nat, present: bool)
    requires Open(fields)
    ensures forall e | e in JsonFields(fields, depth, present, true) :: e.measured
    decreases fields
  {
    if fields != [] {
      var f := fields[0];
      if !Skipped(f) && JsonEmbedded(f) {
        OpenFieldsMeasured(Promoted(f.value), depth + 1, present && !f.value.NilStruct?);
      }
      OpenFieldsMeasured(fields[1..], depth, present);
    }
  }

  /** Values of open types are quiet, whatever they hold. */
  lemma {:induction false} OpenIsQuiet(v: Value)
    requires AllOpen(v)
    ensures Quiet(v)
    decreases Height(v)
  {
    match v
    case Pointer(target) => OpenIsQuiet(target);
    case Slice(items) => forall i | 0 <= i < |items| ensures Quiet(items[i]) { OpenIsQuiet(items[i]); }
    case Struct(fields) =>
      OpenFieldsMeasured(fields, 0, true);
      forall m | m in Flat(fields) && !Omitted(m) ensures Quiet(m.value) { OpenIsQuiet(m.value); }
    case _ =>
  }

  // ---------------------------------------------------------------------------------
  // Where the two readings differ

  const A: Bytes := [0x41]

  /** An ordinary exported field. */
  function Ordinary(name: Bytes, v: Value): Field {
    Field(name, true, false, [], false, [], v)
  }

  function EmbeddedField(exported: bool, v: Value): Field {
    Field([0x45], exported, true, [], false, [], v)
  }

  lemma OneField(f: Field)
    ensures JsonFields([f], 0, true, true) == JsonHead(f, 0, true, true) && Flat([f]) == FlatHead(f)
  {
    assert [f][1..] == [];
    assert JsonHead(f, 0, true, true) + [] == JsonHead(f, 0, true, true) && FlatHead(f) + [] == FlatHead(f);
  }

  lemma PromotedField(f: Field, inner: Field)
    requires !JsonSkipped(f) && JsonEmbedded(f) && Promoted(f.value) == [inner] && !JsonSkipped(inner)
               && !JsonEmbedded(inner)
    ensures JsonFields([f], 0, true, true) == [EntryOf(inner, 1, !f.value.NilStruct?, !Skipped(f))]
  {
    OneField(f);
    assert [inner][1..] == [];
    var e := EntryOf(inner, 1, !f.value.NilStruct?, !Skipped(f));
    assert JsonFields([inner], 1, !f.value.NilStruct?, !Skipped(f)) == [e] + [];
  }

  lemma OneWinner(e: Entry)
    ensures Dominant([e], 0) == [e]
  {
    assert Dominant([e], 1) == [];
    assert Wins([e], 0);
  }

  /** The object of a struct whose only field, of its own or promoted, is `e`. */
  lemma LoneEntry(fields: seq<Field>, e: Entry)
    requires JsonFields(fields, 0, true, true) == [e]
    ensures Encoding(Struct(fields)) == [0x7B]
              + (if Written(e) then StringText(e.name) + Colon + Encoding(e.value) else []) + [0x7D]
  {
    OneWinner(e);
    assert [e][1..] == [];
    assert EntryTexts([e], Height(Struct(fields))) == EntryText(e, Height(Struct(fields))) + [];
  }

  lemma LoneMember(fields: seq<Field>, m: Member)
    requires Flat(fields) == [m] && !Omitted(m)
    ensures Measured(Struct(fields)) == [0x7B] + (StringText(m.name) + Colon + Measured(m.value)) + [0x7D]
    ensures OptionsOk(fields) ==> (Accepts(Struct(fields)) <==> Accepts(m.value))
  {
    assert [m][1..] == [];
    assert MeasuredMembers([m]) == [StringText(m.name) + Colon + Measured(m.value)] + [];
  }

  /** An unexported embedded struct, or pointer to one, is written but not measured, whatever it holds. */
  lemma HiddenEmbeddingUnmeasured(v: Value, pointer: bool)
    ensures var inner := Struct([Ordinary(A, v)]);
            var outer := Struct([EmbeddedField(false, if pointer then Pointer(inner) else inner)]);
            Accepts(outer) && |Measured(outer)| == 2 < |Encoding(outer)|
  {
    var inner := Struct([Ordinary(A, v)]);
    var f := EmbeddedField(false, if pointer then Pointer(inner) else inner);
    OneField(f);
    PromotedField(f, Ordinary(A, v));
    LoneEntry([f], EntryOf(Ordinary(A, v), 1, true, false));
    assert Flat([f]) == [];
    assert MeasuredMembers([]) == [];
  }

  /** A field named "-" through the tag "-," is written but not measured. */
  lemma DashNameUnmeasured(v: Value)
    ensures var outer := Struct([Field(A, true, false, Dash, true, [[]], v)]);
            Accepts(outer) && |Measured(outer)| == 2 < |Encoding(outer)|
  {
    var f := Field(A, true, false, Dash, true, [[]], v);
    OneField(f);
    assert OmitEmpty != [];
    LoneEntry([f], EntryOf(f, 0, true, true));
    assert Flat([f]) == [];
    assert MeasuredMembers([]) == [];
  }

  /** An exported embedded pointer is measured as a member of its own name, but its fields are promoted. */
  lemma EmbeddedPointerOvermeasured(v: Value)
    requires Accepts(v) && Plain(v) && Quiet(v)
    ensures var outer := Struct([EmbeddedField(true, Pointer(Struct([Ordinary(A, v)])))]);
            Accepts(outer) && |Measured(outer)| == |Encoding(outer)| + 3 + |StringText([0x45])|
  {
    var inner := Struct([Ordinary(A, v)]);
    var f := EmbeddedField(true, Pointer(inner));
    OneField(f);
    PromotedField(f, Ordinary(A, v));
    LoneEntry([f], EntryOf(Ordinary(A, v), 1, true, true));
    OneField(Ordinary(A, v));
    LoneMember([Ordinary(A, v)], MemberOf(Ordinary(A, v)));
    LoneMember([f], MemberOf(f));
    MeasuredIsEncodingExactlyWhenQuiet(v);
  }

  /** A nil embedded pointer is measured as null and writes nothing. */
  lemma NilEmbeddedPointerOvermeasured(v: Value)
    ensures var outer := Struct([EmbeddedField(true, NilStruct([Ordinary(A, v)]))]);
            Accepts(outer) && |Encoding(outer)| == 2 < |Measured(outer)|
  {
    var f := EmbeddedField(true, NilStruct([Ordinary(A, v)]));
    OneField(f);
    PromotedField(f, Ordinary(A, v));
    LoneEntry([f], EntryOf(Ordinary(A, v), 1, false, true));
    LoneMember([f], MemberOf(f));
  }

  /** An invalid tag name is measured, but the Go name is written. */
  lemma InvalidTagMismeasured(v: Value, goName: Bytes, tag: Bytes)
    requires Accepts(v) && Plain(v) && Quiet(v) && tag != [] && tag != Dash
    ensures var outer := Struct([Field(goName, true, false, tag, false, [], v)]);
            Accepts(outer) && |Measured(outer)| - |Encoding(outer)| == |StringText(tag)| - |StringText(goName)|
  {
    var f := Field(goName, true, false, tag, false, [], v);
    OneField(f);
    LoneEntry([f], EntryOf(f, 0, true, true));
    LoneMember([f], MemberOf(f));
    MeasuredIsEncodingExactlyWhenQuiet(v);
  }

  lemma TieDropsBoth(d: Entry, e: Entry)
    requires d.name == e.name && d.depth == e.depth && d.tagged == e.tagged
    ensures Dominant([d, e], 0) == []
  {
    var all := [d, e];
    assert all[1].name == all[0].name;
    assert !Wins(all, 0) && !Wins(all, 1);
    assert Dominant(all, 2) == [] && Dominant(all, 1) == [];
  }

  lemma TwoFields(f: Field, g: Field)
    ensures JsonFields([f, g], 0, true, true) == JsonFields([f], 0, true, true) + JsonFields([g], 0, true, true)
    ensures Flat([f, g]) == Flat([f]) + Flat([g])
  {
    assert [f, g][1..] == [g];
    OneField(f);
    OneField(g);
  }

  /** A name that an unmeasured field shares at the same depth: both are dropped, but one is measured. */
  lemma ClashOvermeasured(v: Value, w: Value)
    requires Accepts(v)
    ensures var outer := Struct([EmbeddedField(true, Struct([Ordinary(A, v)])),
              EmbeddedField(false, Struct([Ordinary(A, w)]))]);
            Accepts(outer) && |Encoding(outer)| == 2 < |Measured(outer)|
  {
    var f, g := EmbeddedField(true, Struct([Ordinary(A, v)])), EmbeddedField(false, Struct([Ordinary(A, w)]));
    ClashMeasured(v, f, g);
    PromotedField(f, Ordinary(A, v));
    PromotedField(g, Ordinary(A, w));
    TwoFields(f, g);
    var d, e := EntryOf(Ordinary(A, v), 1, true, true), EntryOf(Ordinary(A, w), 1, true, false);
    assert [d] + [e] == [d, e];
    TieDropsBoth(d, e);
    assert EntryTexts([], Height(Struct([f, g]))) == [];
  }

  lemma ClashMeasured(v: Value, f: Field, g: Field)
    requires Accepts(v) && f == EmbeddedField(true, Struct([Ordinary(A, v)])) && Skipped(g)
    ensures Accepts(Struct([f, g])) && 2 < |Measured(Struct([f, g]))|
  {
    TwoFields(f, g);
    OneField(f);
    OneField(g);
    OneField(Ordinary(A, v));
    var m := MemberOf(Ordinary(A, v));
    assert Flat([f, g]) == [m] + [] == [m];
    assert [f, g][1..] == [g] && [g][1..] == [] && [Ordinary(A, v)][1..] == [];
    assert OptionsOk([g]) && OptionsOk([Ordinary(A, v)]);
    LoneMember([f, g], m);
  }
}
