/** Go values, the text encoding/json writes for them, and the text the preflight measures.

    A Go value is modelled by its kind; a struct carries its declared fields, tags included, so
    that promotion of embedded fields, conflicts of names and the omitempty rule are part of the
    model. `Encoding` follows encoding/json; `Measured` follows the flattened list of the
    preflight. They are compared for all values the preflight accepts. */
module EncodingModel {
  import opened Options
  import opened Json

  datatype Value =
    | NilPointer
    | NilStruct(shape: seq<Field>)   // a nil pointer to a struct with these fields
    | Pointer(target: Value)
    | TimeValue(stamp: Option<Bytes>) // its RFC 3339 text, None when the time cannot be marshalled
    | Str(bytes: Bytes)
    | Boolean(flag: bool)
    | Signed(i: int)
    | Unsigned(u: nat)
    | NilSlice
    | Slice(items: seq<Value>)
    | Struct(fields: seq<Field>)
    // A json.Marshaler, or a map, interface, array, float or other kind the preflight refuses. `zero`
    // is what the preflight's omitempty test says; `empty` what else encoding/json takes for empty.
    | Opaque(text: Option<Bytes>, zero: bool, empty: bool)
    // A struct or slice that encoding/json writes by its own rule: a MarshalText method, a
    // MarshalJSON method on the pointer, a byte slice.
    | OwnText(written: Bytes, plain: Value)

  /** A declared field. `tagName` and `options` are the json tag split at its commas; `validTag`
      says whether encoding/json takes the tag name for a name. */
  datatype Field = Field(goName: Bytes, exported: bool, anonymous: bool, tagName: Bytes, validTag: bool,
                         options: seq<Bytes>, value: Value)

  const Dash: Bytes := [0x2D]
  const Colon: Bytes := [0x3A]
  const OmitEmpty: Bytes := [0x6F, 0x6D, 0x69, 0x74, 0x65, 0x6D, 0x70, 0x74, 0x79]

  /** impactJSONEmpty */
  predicate Empty(v: Value) {
    match v
    case Str(bytes) => bytes == []
    case NilSlice => true
    case Slice(items) => items == []
    case Boolean(flag) => !flag
    case Signed(i) => i == 0
    case Unsigned(u) => u == 0
    case NilPointer => true
    case NilStruct(_) => true
    case Opaque(_, zero, _) => zero
    case OwnText(_, plain) => Empty(plain)
    case _ => false
  }

  /** The omitempty test of encoding/json, which knows more kinds. */
  predicate JsonEmpty(v: Value) {
    Empty(v) || (v.Opaque? && v.empty)
  }

  // ---------------------------------------------------------------------------------
  // Heights, for recursion over flattened fields

  function Height(v: Value): nat
    decreases v, 1
  {
    match v
    case Pointer(target) => 1 + Height(target)
    case Slice(items) => 1 + ItemsHeight(items)
    case Struct(fields) => 1 + FieldsHeight(fields)
    case NilStruct(shape) => 1 + FieldsHeight(shape)
    case OwnText(_, plain) => 1 + Height(plain)
    case _ => 0
  }

  function ItemsHeight(items: seq<Value>): (h: nat)
    ensures forall i | 0 <= i < |items| :: Height(items[i]) <= h
    decreases items, 0
  {
    if items == [] then 0
    else
      var a, b := Height(items[0]), ItemsHeight(items[1..]);
      if a > b then a else b
  }

  function FieldsHeight(fields: seq<Field>): nat
    decreases fields, 0
  {
    if fields == [] then 0
    else
      var a, b := Height(fields[0].value), FieldsHeight(fields[1..]);
      if a > b then a else b
  }

  // ---------------------------------------------------------------------------------
  // What encoding/json writes

  /** The type of the value is a struct or a pointer to one. */
  predicate StructType(v: Value) {
    v.Struct? || v.NilStruct? || (v.Pointer? && v.target.Struct?)
  }

  function Promoted(v: Value): seq<Field>
    requires StructType(v)
  {
    if v.Struct? then v.fields else if v.NilStruct? then v.shape else v.target.fields
  }

  /** A tag name that is not valid counts as none. */
  function JsonTag(f: Field): Bytes {
    if f.validTag then f.tagName else []
  }

  function JsonName(f: Field): Bytes {
    if JsonTag(f) == [] then f.goName else JsonTag(f)
  }

  /** Unexported fields are skipped, embedded structs excepted; so is the tag "-" without options. */
  predicate JsonSkipped(f: Field) {
    (!f.exported && !(f.anonymous && StructType(f.value))) || (f.tagName == Dash && f.options == [])
  }

  predicate JsonEmbedded(f: Field) {
    f.anonymous && JsonTag(f) == [] && StructType(f.value)
  }

  /** A field encoding/json considers. `present` is false below a nil pointer; `measured` says whether the
      preflight looks at it too. */
  datatype Entry = Entry(name: Bytes, tagged: bool, depth: nat, omitEmpty: bool, present: bool, measured: bool,
                         value: Value)

  function EntryOf(f: Field, depth: nat, present: bool, measured: bool): Entry {
    Entry(JsonName(f), JsonTag(f) != [], depth, OmitEmpty in f.options, present, measured && !Skipped(f), f.value)
  }

  function JsonHead(f: Field, depth: nat, present: bool, measured: bool): (es: seq<Entry>)
    ensures forall e | e in es :: Height(e.value) <= Height(f.value)
    decreases f, 1
  {
    if JsonSkipped(f) then []
    else if JsonEmbedded(f) then
      JsonFields(Promoted(f.value), depth + 1, present && !f.value.NilStruct?, measured && !Skipped(f))
    else [EntryOf(f, depth, present, measured)]
  }

  /** All fields by declaration order, those of embedded structs at their place. */
  function JsonFields(fields: seq<Field>, depth: nat, present: bool, measured: bool): (es: seq<Entry>)
    ensures forall e | e in es :: Height(e.value) <= FieldsHeight(fields)
    decreases fields, 0
  {
    if fields == [] then []
    else JsonHead(fields[0], depth, present, measured) + JsonFields(fields[1..], depth, present, measured)
  }

  /** Of fields with one name the shallowest wins, then the tagged one; a tie drops them all. */
  predicate Wins(all: seq<Entry>, i: nat)
    requires i < |all|
  {
    forall j | 0 <= j < |all| && j != i && all[j].name == all[i].name ::
      all[i].depth < all[j].depth || (all[i].depth == all[j].depth && all[i].tagged && !all[j].tagged)
  }

  function Dominant(all: seq<Entry>, i: nat): (es: seq<Entry>)
    requires i <= |all|
    ensures forall e | e in es :: e in all
    decreases |all| - i
  {
    if i == |all| then [] else (if Wins(all, i) then [all[i]] else []) + Dominant(all, i + 1)
  }

  /** The fields of a struct that its object holds, before omitempty. */
  function Winners(fields: seq<Field>): (es: seq<Entry>)
    ensures forall e | e in es :: Height(e.value) <= FieldsHeight(fields)
  {
    Dominant(JsonFields(fields, 0, true, true), 0)
  }

  predicate Written(e: Entry) {
    e.present && !(e.omitEmpty && JsonEmpty(e.value))
  }

  function TextOf(text: Option<Bytes>): Bytes {
    if text.Some? then text.value else []
  }

  function Encoding(v: Value): Bytes
    decreases Height(v), 1, 0
  {
    match v
    case NilPointer => Null
    case NilStruct(_) => Null
    case Pointer(target) => Encoding(target)
    case TimeValue(stamp) => if stamp.Some? then StringText(stamp.value) else []
    case Str(bytes) => StringText(bytes)
    case Boolean(flag) => if flag then TrueText else FalseText
    case Signed(i) => IntText(i)
    case Unsigned(u) => IntText(u)
    case NilSlice => Null
    case Slice(items) => ListText(ItemEncodings(items, Height(v)))
    case Struct(fields) => ObjectText(EntryTexts(Winners(fields), Height(v)))
    case Opaque(text, _, _) => TextOf(text)
    case OwnText(written, _) => written
  }

  function ItemEncodings(items: seq<Value>, h: nat): seq<Bytes>
    requires ItemsHeight(items) < h
    decreases h, 0, |items|
  {
    if items == [] then [] else [Encoding(items[0])] + ItemEncodings(items[1..], h)
  }

  function EntryText(e: Entry, h: nat): seq<Bytes>
    requires Height(e.value) < h
    decreases h, 0, 0
  {
    if Written(e) then [StringText(e.name) + Colon + Encoding(e.value)] else []
  }

  function EntryTexts(es: seq<Entry>, h: nat): seq<Bytes>
    requires forall e | e in es :: Height(e.value) < h
    decreases h, 0, |es|
  {
    if es == [] then [] else EntryText(es[0], h) + EntryTexts(es[1..], h)
  }

  /** json.Marshal succeeds. */
  ghost predicate Marshals(v: Value)
    decreases Height(v)
  {
    match v
    case Pointer(target) => Marshals(target)
    case TimeValue(stamp) => stamp.Some?
    case Opaque(text, _, _) => text.Some?
    case Slice(items) => forall i | 0 <= i < |items| :: Marshals(items[i])
    case Struct(fields) => forall e | e in Winners(fields) && Written(e) :: Marshals(e.value)
    case _ => true
  }

  // ---------------------------------------------------------------------------------
  // What the preflight measures

  /** impactJSONField: one entry of the flattened field list. */
  datatype Member = Member(name: Bytes, omitEmpty: bool, value: Value)

  predicate Embedded(f: Field) {
    f.anonymous && f.tagName == [] && f.value.Struct?
  }

  predicate Skipped(f: Field) {
    !f.exported || f.tagName == Dash
  }

  function MemberOf(f: Field): Member {
    Member(if f.tagName == [] then f.goName else f.tagName, f.options == [OmitEmpty], f.value)
  }

  function FlatHead(f: Field): (ms: seq<Member>)
    ensures forall m | m in ms :: Height(m.value) <= Height(f.value)
    decreases f, 1
  {
    if Skipped(f) then [] else if Embedded(f) then Flat(f.value.fields) else [MemberOf(f)]
  }

  /** The list impactJSONFields builds, in declaration order. */
  function Flat(fields: seq<Field>): (ms: seq<Member>)
    ensures forall m | m in ms :: Height(m.value) <= FieldsHeight(fields)
    decreases fields, 0
  {
    if fields == [] then [] else FlatHead(fields[0]) + Flat(fields[1..])
  }

  /** A tag may carry no option but a single omitempty. */
  predicate OptionsOk(fields: seq<Field>)
    decreases fields
  {
    fields == [] ||
    (var f := fields[0];
     && (if Skipped(f) then true
         else if Embedded(f) then OptionsOk(f.value.fields)
         else f.options == [] || f.options == [OmitEmpty])
     && OptionsOk(fields[1..]))
  }

  ghost predicate DistinctNames(ms: seq<Member>) {
    forall i, j | 0 <= i < j < |ms| :: ms[i].name != ms[j].name
  }

  ghost predicate SchemaOk(fields: seq<Field>) {
    OptionsOk(fields) && DistinctNames(Flat(fields))
  }

  predicate Omitted(m: Member) {
    m.omitEmpty && Empty(m.value)
  }

  /** The shapes the preflight accepts. */
  ghost predicate Accepts(v: Value)
    decreases Height(v)
  {
    match v
    case Pointer(target) => Accepts(target)
    case TimeValue(stamp) => stamp.Some?
    case Opaque(_, _, _) => false
    case OwnText(_, plain) => Accepts(plain)
    case Slice(items) => forall i | 0 <= i < |items| :: Accepts(items[i])
    case Struct(fields) =>
      SchemaOk(fields) && forall m | m in Flat(fields) && !Omitted(m) :: Accepts(m.value)
    case _ => true
  }

  function MembersHeight(ms: seq<Member>): (h: nat)
    ensures forall i | 0 <= i < |ms| :: Height(ms[i].value) <= h
    ensures h == 0 || exists i | 0 <= i < |ms| :: Height(ms[i].value) == h
  {
    if ms == [] then 0
    else
      assert forall i | 0 <= i < |ms[1..]| :: ms[1..][i] == ms[i + 1];
      var a, b := Height(ms[0].value), MembersHeight(ms[1..]);
      if a > b then a else b
  }

  lemma {:induction false} FlatIsLower(fields: seq<Field>)
    ensures MembersHeight(Flat(fields)) < Height(Struct(fields))
  {
    var ms, h := Flat(fields), FieldsHeight(fields);
    forall m | m in ms ensures Height(m.value) <= h {
    }
    MembersBelow(ms, h);
    assert Height(Struct(fields)) == 1 + h;
  }

  lemma {:induction false} MembersBelow(ms: seq<Member>, h: nat)
    requires forall m | m in ms :: Height(m.value) <= h
    ensures MembersHeight(ms) <= h
  {
    if MembersHeight(ms) > 0 {
      var i :| 0 <= i < |ms| && Height(ms[i].value) == MembersHeight(ms);
      assert ms[i] in ms;
    }
  }

  /** The text the preflight measures, over the flattened list. */
  function Measured(v: Value): Bytes
    decreases 2 * Height(v), 0
  {
    match v
    case NilPointer => Null
    case NilStruct(_) => Null
    case Pointer(target) => Measured(target)
    case TimeValue(stamp) => if stamp.Some? then StringText(stamp.value) else []
    case Str(bytes) => StringText(bytes)
    case Boolean(flag) => if flag then TrueText else FalseText
    case Signed(i) => IntText(i)
    case Unsigned(u) => IntText(u)
    case NilSlice => Null
    case Slice(items) => ListText(MeasuredItems(items))
    case Struct(fields) =>
      FlatIsLower(fields);
      ObjectText(MeasuredMembers(Flat(fields)))
    case Opaque(_, _, _) => []
    case OwnText(_, plain) => Measured(plain)
  }

  function MeasuredItems(items: seq<Value>): seq<Bytes>
    decreases 2 * ItemsHeight(items) + 1, |items|
  {
    if items == [] then [] else [Measured(items[0])] + MeasuredItems(items[1..])
  }

  function MeasuredMembers(ms: seq<Member>): seq<Bytes>
    decreases 2 * MembersHeight(ms) + 1, |ms|
  {
    if ms == [] then []
    else
      (if Omitted(ms[0]) then [] else [StringText(ms[0].name) + Colon + Measured(ms[0].value)])
      + MeasuredMembers(ms[1..])
  }

  lemma {:induction false} MeasuredMembersAppend(a: seq<Member>, b: seq<Member>)
    ensures MeasuredMembers(a + b) == MeasuredMembers(a) + MeasuredMembers(b)
    decreases |a|
  {
    if a == [] {
      assert a + b == b;
    } else {
      assert (a + b)[1..] == a[1..] + b;
      MeasuredMembersAppend(a[1..], b);
    }
  }
}
