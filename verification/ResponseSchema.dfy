/** Types of response values, and the proof that the preflight measures the values of a regular type exactly.

    `Type` describes the Go types a response is made of. `HasType` says which values a type has;
    the conditions of EncodingExact follow from the type alone, once its names are known apart. */
module ResponseSchema {
  import opened Options
  import opened Json
  import opened EncodingModel
  import opened EncodingExact
  import opened EncodingReads

  datatype Type = Text | Flag | Int | Uint | Time | Nullable(target: Type) | List(item: Type) | Record(decls: seq<Decl>)

  /** A field with the name its tag gives it; an embedded struct has none. */
  datatype Decl = Decl(tag: Bytes, omitEmpty: bool, t: Type) {
    predicate Embeds() {
      tag == [] && t.Record?
    }
  }

  /** The values of a type. Times outside the years that can be written are no part of a response. */
  ghost predicate HasType(v: Value, t: Type)
    decreases t, 1
  {
    match t
    case Text => v.Str?
    case Flag => v.Boolean?
    case Int => v.Signed?
    case Uint => v.Unsigned?
    case Time => v.TimeValue? && v.stamp.Some?
    case Nullable(target) => v.NilPointer? || v.NilStruct? || (v.Pointer? && HasType(v.target, target))
    case List(item) => v.NilSlice? || (v.Slice? && forall i | 0 <= i < |v.items| :: HasType(v.items[i], item))
    case Record(decls) => v.Struct? && FieldsFit(v.fields, decls)
  }

  ghost predicate FieldsFit(fields: seq<Field>, decls: seq<Decl>)
    decreases decls, 0
  {
    if decls == [] then fields == []
    else fields != [] && FieldFits(fields[0], decls[0]) && FieldsFit(fields[1..], decls[1..])
  }

  ghost predicate FieldFits(f: Field, d: Decl)
    decreases d, 0
  {
    && f.exported && HasType(f.value, d.t)
    && (f.anonymous <==> d.Embeds()) && f.tagName == d.tag
    && (!d.Embeds() ==> f.validTag && f.options == (if d.omitEmpty then [OmitEmpty] else []))
  }

  /** The names of a struct's object, those of embedded structs at their place. */
  function Names(decls: seq<Decl>): seq<Bytes>
    decreases decls, 0
  {
    if decls == [] then [] else HeadNames(decls[0]) + Names(decls[1..])
  }

  function HeadNames(d: Decl): seq<Bytes>
    decreases d, 0
  {
    if d.Embeds() then Names(d.t.decls) else [d.tag]
  }

  ghost predicate Apart(names: seq<Bytes>) {
    forall i, j | 0 <= i < j < |names| :: names[i] != names[j]
  }

  /** Names of two bytes or more, told apart, in every struct of the type. */
  ghost predicate Regular(t: Type)
    decreases t, 1
  {
    match t
    case Nullable(target) => Regular(target)
    case List(item) => Regular(item)
    case Record(decls) => Apart(Names(decls)) && RegularDecls(decls)
    case _ => true
  }

  ghost predicate RegularDecls(decls: seq<Decl>)
    decreases decls, 0
  {
    decls == [] || (RegularDecl(decls[0]) && RegularDecls(decls[1..]))
  }

  ghost predicate RegularDecl(d: Decl)
    decreases d, 0
  {
    if d.Embeds() then RegularDecls(d.t.decls) else |d.tag| >= 2 && Regular(d.t)
  }

  // ---------------------------------------------------------------------------------
  // What follows from the type

  /** The declarations are read alike by both sides. */
  lemma {:induction false} TypedFieldsAgree(fields: seq<Field>, decls: seq<Decl>)
    requires FieldsFit(fields, decls) && RegularDecls(decls)
    ensures Tidy(fields) && Open(fields) && OptionsOk(fields)
    decreases decls, 1
  {
    if decls != [] {
      TypedFieldAgrees(fields[0], decls[0]);
      TypedFieldsAgree(fields[1..], decls[1..]);
    }
  }

  lemma {:induction false} TypedFieldAgrees(f: Field, d: Decl)
    requires FieldFits(f, d) && RegularDecl(d)
    ensures !Skipped(f) && !JsonSkipped(f)
    ensures Embedded(f) <==> d.Embeds()
    ensures JsonEmbedded(f) <==> d.Embeds()
    ensures !d.Embeds() ==> f.tagName != [] && f.validTag && (f.options == [] || f.options == [OmitEmpty])
    ensures d.Embeds() ==> f.value.Struct? && Tidy(f.value.fields) && Open(f.value.fields) && OptionsOk(f.value.fields)
    decreases d, 1
  {
    if d.Embeds() { TypedFieldsAgree(f.value.fields, d.t.decls); }
  }

  /** Both sides see the same names in the same order. */
  lemma {:induction false} TypedNames(fields: seq<Field>, decls: seq<Decl>, depth: nat)
    requires FieldsFit(fields, decls) && RegularDecls(decls)
    ensures MemberNames(Flat(fields)) == Names(decls)
    ensures EntryNames(JsonFields(fields, depth, true, true)) == Names(decls)
    decreases decls, 1
  {
    if decls != [] {
      var f, rest := fields[0], fields[1..];
      TypedHeadNames(f, decls[0], depth);
      TypedNames(rest, decls[1..], depth);
      MemberNamesAppend(FlatHead(f), Flat(rest));
      EntryNamesAppend(JsonHead(f, depth, true, true), JsonFields(rest, depth, true, true));
    }
  }

  lemma {:induction false} TypedHeadNames(f: Field, d: Decl, depth: nat)
    requires FieldFits(f, d) && RegularDecl(d)
    ensures MemberNames(FlatHead(f)) == HeadNames(d)
    ensures EntryNames(JsonHead(f, depth, true, true)) == HeadNames(d)
    decreases d, 1
  {
    TypedFieldAgrees(f, d);
    if d.Embeds() { TypedNames(f.value.fields, d.t.decls, depth + 1); }
  }

  lemma MemberNamesAppend(a: seq<Member>, b: seq<Member>)
    ensures MemberNames(a + b) == MemberNames(a) + MemberNames(b)
  {
  }

  lemma EntryNamesAppend(a: seq<Entry>, b: seq<Entry>)
    ensures EntryNames(a + b) == EntryNames(a) + EntryNames(b)
  {
  }

  ghost function MemberNames(ms: seq<Member>): (r: seq<Bytes>)
    ensures |r| == |ms| && forall i | 0 <= i < |ms| :: r[i] == ms[i].name
  {
    seq(|ms|, i requires 0 <= i < |ms| => ms[i].name)
  }

  ghost function EntryNames(es: seq<Entry>): (r: seq<Bytes>)
    ensures |r| == |es| && forall i | 0 <= i < |es| :: r[i] == es[i].name
  {
    seq(|es|, i requires 0 <= i < |es| => es[i].name)
  }

  ghost predicate Good(v: Value) {
    Accepts(v) && Plain(v) && AllOpen(v) && Marshals(v) && Readable(v)
  }

  lemma {:induction false} TypedMembersGood(fields: seq<Field>, decls: seq<Decl>, depth: nat)
    requires FieldsFit(fields, decls) && RegularDecls(decls)
    ensures forall m | m in Flat(fields) :: Good(m.value)
    ensures forall e | e in JsonFields(fields, depth, true, true) :: Good(e.value)
    decreases decls, 1
  {
    if decls != [] {
      TypedHeadGood(fields[0], decls[0], depth);
      TypedMembersGood(fields[1..], decls[1..], depth);
    }
  }

  lemma {:induction false} TypedHeadGood(f: Field, d: Decl, depth: nat)
    requires FieldFits(f, d) && RegularDecl(d)
    ensures forall m | m in FlatHead(f) :: Good(m.value)
    ensures forall e | e in JsonHead(f, depth, true, true) :: Good(e.value)
    decreases d, 1
  {
    TypedFieldAgrees(f, d);
    if d.Embeds() { TypedMembersGood(f.value.fields, d.t.decls, depth + 1); } else { TypedIsGood(f.value, d.t); }
  }

  lemma {:induction false} TypedIsGood(v: Value, t: Type)
    requires HasType(v, t) && Regular(t)
    ensures Good(v)
    decreases t, 2
  {
    match t
    case Nullable(target) => if v.Pointer? { TypedIsGood(v.target, target); }
    case List(item) =>
      if v.Slice? { forall i | 0 <= i < |v.items| ensures Good(v.items[i]) { TypedIsGood(v.items[i], item); } }
    case Record(decls) => TypedRecordGood(v.fields, decls);
    case _ =>
  }

  lemma {:induction false} TypedRecordGood(fields: seq<Field>, decls: seq<Decl>)
    requires FieldsFit(fields, decls) && RegularDecls(decls) && Apart(Names(decls))
    ensures Good(Struct(fields))
    decreases decls, 2
  {
    TypedFieldsAgree(fields, decls);
    TypedNames(fields, decls, 0);
    TypedMembersGood(fields, decls, 0);
    SameNamesApart(fields, Names(decls));
  }

  lemma SameNamesApart(fields: seq<Field>, names: seq<Bytes>)
    requires MemberNames(Flat(fields)) == names && EntryNames(JsonFields(fields, 0, true, true)) == names
               && Apart(names)
    ensures DistinctNames(Flat(fields)) && DistinctEntries(JsonFields(fields, 0, true, true))
  {
  }

  /** For every value of a regular type the preflight accepts, the measure is the length that will be written. */
  lemma RegularIsMeasuredExactly(v: Value, t: Type)
    requires HasType(v, t) && Regular(t)
    ensures Accepts(v) && Marshals(v) && Readable(v) && Plain(v) && Quiet(v) && Measured(v) == Encoding(v)
  {
    TypedIsGood(v, t);
    OpenIsQuiet(v);
    MeasuredIsEncodingExactlyWhenQuiet(v);
  }
}
