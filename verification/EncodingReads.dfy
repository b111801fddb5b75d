/** The text encoding/json writes is JSON: reading it back gives the tree of the value's written fields. */
module EncodingReads {
  import opened Options
  import opened Json
  import opened JsonReader
  import opened EncodingModel
  import opened EncodingExact

  /** Nothing written is left to a marshal method or to a kind the model does not open up. */
  ghost predicate Readable(v: Value)
    decreases Height(v)
  {
    match v
    case Pointer(target) => Readable(target)
    case Opaque(_, _, _) => false
    case OwnText(_, _) => false
    case TimeValue(stamp) => stamp.Some?
    case Slice(items) => forall i | 0 <= i < |items| :: Readable(items[i])
    case Struct(fields) => forall e | e in Winners(fields) && Written(e) :: Readable(e.value)
    case _ => true
  }

  /** What a value stands for: pointers are followed, a struct is an object of its written fields, under their names and
      in order, and text is repaired to valid UTF-8. */
  ghost function TreeOf(v: Value): Tree
    decreases Height(v), 1, 0
  {
    match v
    case Pointer(target) => TreeOf(target)
    case TimeValue(stamp) => TextTree(if stamp.Some? then Repaired(stamp.value) else [])
    case Str(bytes) => TextTree(Repaired(bytes))
    case Boolean(flag) => BoolTree(flag)
    case Signed(i) => IntTree(i)
    case Unsigned(u) => IntTree(u)
    case Slice(items) => ListTree(TreesOf(items, Height(v)))
    case Struct(fields) => ObjectTree(MembersOf(Winners(fields), Height(v)))
    case _ => NullTree
  }

  ghost function TreesOf(items: seq<Value>, h: nat): (trees: seq<Tree>)
    requires ItemsHeight(items) < h
    ensures |trees| == |items|
    decreases h, 0, |items|
  {
    if items == [] then [] else [TreeOf(items[0])] + TreesOf(items[1..], h)
  }

  ghost function MembersOf(es: seq<Entry>, h: nat): seq<(Bytes, Tree)>
    requires forall e | e in es :: Height(e.value) < h
    decreases h, 0, |es|
  {
    if es == [] then []
    else (if Written(es[0]) then [(Repaired(es[0].name), TreeOf(es[0].value))] else []) + MembersOf(es[1..], h)
  }

  ghost predicate AllRead(texts: seq<Bytes>, trees: seq<Tree>) {
    |texts| == |trees| && forall i | 0 <= i < |texts| :: ReadsAs(texts[i], trees[i])
  }

  ghost predicate AllMembersRead(texts: seq<Bytes>, members: seq<(Bytes, Tree)>) {
    |texts| == |members| && forall i | 0 <= i < |texts| :: MemberReadsAs(texts[i], members[i])
  }

  lemma {:induction false} ItemTextsRead(items: seq<Value>, h: nat)
    requires ItemsHeight(items) < h && forall i | 0 <= i < |items| :: Readable(items[i])
    ensures AllRead(ItemEncodings(items, h), TreesOf(items, h))
    decreases h, 0, |items|
  {
    if items != [] {
      EncodingReadsBack(items[0]);
      ItemTextsRead(items[1..], h);
    }
  }

  lemma {:induction false} EntryTextsRead(es: seq<Entry>, h: nat)
    requires forall e | e in es :: Height(e.value) < h
    requires forall e | e in es && Written(e) :: Readable(e.value)
    ensures AllMembersRead(EntryTexts(es, h), MembersOf(es, h))
    decreases h, 0, |es|
  {
    if es != [] {
      var e := es[0];
      if Written(e) {
        EncodingReadsBack(e.value);
        MemberReads(e.name, Encoding(e.value), TreeOf(e.value));
      }
      EntryTextsRead(es[1..], h);
    }
  }

  lemma BracketReads(inner: Bytes, trees: seq<Tree>, rest: Bytes)
    requires ReadItems(inner) == Some((trees, rest))
    ensures ReadValue([0x5B] + inner) == Some((ListTree(trees), rest))
  {
    assert ([0x5B] + inner)[1..] == inner;
    assert inner[0] != 0x5D;
  }

  lemma BraceReads(inner: Bytes, members: seq<(Bytes, Tree)>, rest: Bytes)
    requires ReadMembers(inner) == Some((members, rest))
    ensures ReadValue([0x7B] + inner) == Some((ObjectTree(members), rest))
  {
    assert ([0x7B] + inner)[1..] == inner;
    assert inner[0] == QUOTE;
  }

  lemma ListReads(texts: seq<Bytes>, trees: seq<Tree>)
    requires AllRead(texts, trees)
    ensures ReadsAs(ListText(texts), ListTree(trees))
  {
    forall rest: Bytes ensures ReadValue(ListText(texts) + rest) == Some((ListTree(trees), rest)) {
      var inner := Join(texts) + ([0x5D] + rest);
      assert ListText(texts) + rest == [0x5B] + inner;
      if texts == [] {
        assert ([0x5B] + inner)[2..] == rest && trees == [];
      } else {
        ItemsRead(texts, trees, rest);
        BracketReads(inner, trees, rest);
      }
    }
  }

  lemma ObjectReads(texts: seq<Bytes>, members: seq<(Bytes, Tree)>)
    requires AllMembersRead(texts, members)
    ensures ReadsAs(ObjectText(texts), ObjectTree(members))
  {
    forall rest: Bytes ensures ReadValue(ObjectText(texts) + rest) == Some((ObjectTree(members), rest)) {
      var inner := Join(texts) + ([0x7D] + rest);
      assert ObjectText(texts) + rest == [0x7B] + inner;
      if texts == [] {
        assert ([0x7B] + inner)[2..] == rest && members == [];
      } else {
        MembersRead(texts, members, rest);
        BraceReads(inner, members, rest);
      }
    }
  }

  /** Whatever follows it, the encoding of a value reads as the tree of the value. */
  lemma {:induction false} EncodingReadsBack(v: Value)
    requires Readable(v)
    ensures ReadsAs(Encoding(v), TreeOf(v))
    decreases Height(v), 1, 0
  {
    ConstantsRead();
    match v
    case Pointer(target) => EncodingReadsBack(target);
    case TimeValue(stamp) => TextReads(stamp.value);
    case Str(bytes) => TextReads(bytes);
    case Signed(i) => NumberReads(i);
    case Unsigned(u) => NumberReads(u);
    case Slice(items) =>
      ItemTextsRead(items, Height(v));
      ListReads(ItemEncodings(items, Height(v)), TreesOf(items, Height(v)));
    case Struct(fields) =>
      EntryTextsRead(Winners(fields), Height(v));
      ObjectReads(EntryTexts(Winners(fields), Height(v)), MembersOf(Winners(fields), Height(v)));
    case _ =>
  }

  // ---------------------------------------------------------------------------------
  // Which fields an object holds

  ghost predicate ZeroTree(t: Tree) {
    t == NullTree || t == BoolTree(false) || t == IntTree(0) || t == TextTree([]) || t == ListTree([])
  }

  lemma RepairedNonEmpty(bytes: Bytes)
    ensures Repaired(bytes) == [] <==> bytes == []
  {
  }

  /** A value that is no pointer, struct or time is omitted as empty exactly when it would read as null, false, zero or
      nothing; values behind pointers, structs and times never are. */
  lemma {:induction false} EmptyReadsAsZero(v: Value)
    ensures v.Pointer? || v.Struct? || v.TimeValue? ==> !Empty(v)
    ensures v.Opaque? ==> (Empty(v) <==> v.zero) && (JsonEmpty(v) <==> v.zero || v.empty)
    ensures !v.Opaque? && !v.OwnText? && !v.Pointer? && !v.Struct? && !v.TimeValue? ==>
              (Empty(v) <==> ZeroTree(TreeOf(v)))
    ensures !v.Opaque? ==> (JsonEmpty(v) <==> Empty(v))
  {
    if v.Str? { RepairedNonEmpty(v.bytes); }
  }

  lemma {:induction false} DominantExactly(all: seq<Entry>, i: nat, k: nat)
    requires i <= k < |all| && Wins(all, k)
    ensures all[k] in Dominant(all, i)
    decreases |all| - i
  {
    if i < k { DominantExactly(all, i + 1, k); }
  }

  ghost predicate Winner(all: seq<Entry>, k: nat, e: Entry) {
    k < |all| && Wins(all, k) && all[k] == e
  }

  lemma {:induction false} DominantDistinct(all: seq<Entry>, i: nat)
    requires i <= |all|
    ensures forall e | e in Dominant(all, i) :: exists k: nat | i <= k :: Winner(all, k, e)
    ensures DistinctEntries(Dominant(all, i))
    decreases |all| - i
  {
    if i < |all| {
      DominantDistinct(all, i + 1);
      assert Wins(all, i) ==> Winner(all, i, all[i]);
      forall e | e in Dominant(all, i) ensures exists k: nat | i <= k :: Winner(all, k, e) {
        if e in Dominant(all, i + 1) {
          var k: nat :| i + 1 <= k && Winner(all, k, e);
          assert i <= k;
        }
      }
      if Wins(all, i) {
        forall e | e in Dominant(all, i + 1) ensures e.name != all[i].name {
          var k: nat :| i + 1 <= k && Winner(all, k, e);
        }
      }
    }
  }

  /** No name occurs twice in an object; a field that is alone the shallowest of its name is in it, and so is one that
      is alone tagged among the shallowest. */
  lemma ObjectsNameOnce(fields: seq<Field>, k: nat)
    requires k < |JsonFields(fields, 0, true, true)|
    ensures DistinctEntries(Winners(fields))
    ensures var all := JsonFields(fields, 0, true, true);
            (forall j | 0 <= j < |all| && j != k && all[j].name == all[k].name :: all[j].depth > all[k].depth)
            ==> all[k] in Winners(fields)
    ensures var all := JsonFields(fields, 0, true, true);
            all[k].tagged && (forall j | 0 <= j < |all| && j != k && all[j].name == all[k].name ::
                                all[j].depth >= all[k].depth && !all[j].tagged)
            ==> all[k] in Winners(fields)
  {
    var all := JsonFields(fields, 0, true, true);
    DominantDistinct(all, 0);
    if Wins(all, k) { DominantExactly(all, 0, k); }
  }

  ghost predicate Declares(e: Entry, f: Field, depth: nat, present: bool) {
    e.depth == depth && e.value == f.value && e.present == present && (e.omitEmpty <==> OmitEmpty in f.options)
  }

  /** How encoding/json reads one declaration: unexported fields and the tag "-" give nothing, an untagged embedded
      struct gives its fields one level deeper, exported or not, and any other exported field gives itself, under its
      tag or its Go name. */
  lemma {:induction false} DeclarationRules(f: Field, depth: nat, present: bool)
    ensures !f.exported && (!f.anonymous || !StructType(f.value)) ==> JsonHead(f, depth, present, true) == []
    ensures f.tagName == Dash && f.options == [] ==> JsonHead(f, depth, present, true) == []
    ensures f.anonymous && f.tagName == [] && f.value.Struct? ==>
              JsonHead(f, depth, present, true) == JsonFields(f.value.fields, depth + 1, present, f.exported)
    ensures f.exported && !f.anonymous && f.tagName == [] ==>
              exists e :: JsonHead(f, depth, present, true) == [e] && !e.tagged && e.name == f.goName
                          && Declares(e, f, depth, present)
    ensures f.exported && f.validTag && f.tagName != [] && f.tagName != Dash ==>
              exists e :: JsonHead(f, depth, present, true) == [e] && e.tagged && e.name == f.tagName
                          && Declares(e, f, depth, present)
  {
    var e := EntryOf(f, depth, present, true);
    assert !JsonSkipped(f) && !JsonEmbedded(f) ==> JsonHead(f, depth, present, true) == [e];
  }
}
