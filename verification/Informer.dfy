/**
 * The upsert and delete handlers of the core informers, with the memo of persisted versions that
 * lets them skip resource writes. The store is a map from resource identities; a write may fail.
 */
module Informer {

  import opened Options
  import Runs

  datatype Gvr = Gvr(group: string, version: string, resource: string)

  datatype Object = Object(kind: string, namespace: string, name: string, uid: string, resourceVersion: string,
                           content: string)

  /** resourceWriteKey and resourceWriteVersion */
  datatype Key = Key(gvr: Gvr, namespace: string, name: string)
  datatype Version = Version(uid: string, resourceVersion: string)

  datatype Id = Id(namespace: string, kind: string, name: string)

  datatype Change = Add | Update | Removed

  datatype Event = Event(key: Key, change: Change, version: Version)

  /** A Secret named by an extracted edge, and whether the write of its placeholder succeeds. */
  datatype Placeholder = Placeholder(namespace: string, name: string, stored: bool)

  /** One callback, or a write that another collector makes to the same store. `stored` is the store's answer if the
      handler writes the resource, `extracted` what its edges name. */
  datatype Delivery =
    | Upsert(gvr: Gvr, item: Object, change: Change, stored: bool, extracted: seq<Placeholder>)
    | Delete(gvr: Gvr, item: Object, deleted: bool)
    | Foreign(id: Id, written: Option<Object>)

  datatype State = State(persisted: map<Key, Version>, kinds: map<Gvr, string>, store: map<Id, Object>,
                         events: seq<Event>)

  const INITIAL := State(map[], map[], map[], [])
  const SECRET := "Secret"

  function KeyOf(d: Delivery): Key
    requires !d.Foreign?
  {
    Key(d.gvr, d.item.namespace, d.item.name)
  }

  function VersionOf(o: Object): Version {
    Version(o.uid, o.resourceVersion)
  }

  predicate Versioned(v: Version) {
    v.uid != "" && v.resourceVersion != ""
  }

  function Upper(c: char): char {
    if 'a' <= c <= 'z' then 'A' + (c - 'a') else c
  }

  predicate HasSuffix(s: string, suffix: string) {
    |suffix| <= |s| && s[|s| - |suffix|..] == suffix
  }

  /** defaultKindFromResource, for resource names longer than the plural ending they carry. */
  function DefaultKind(resource: string): string {
    if resource == "" then ""
    else if HasSuffix(resource, "ies") && |resource| > 3 then [Upper(resource[0])] + resource[1..|resource| - 3] + "y"
    else if HasSuffix(resource, "ses") then [Upper(resource[0])] + resource[1..|resource| - 2]
    else if HasSuffix(resource, "s") && |resource| > 1 then [Upper(resource[0])] + resource[1..|resource| - 1]
    else [Upper(resource[0])] + resource[1..]
  }

  function Capitalised(w: string): string
    requires w != ""
  {
    [Upper(w[0])] + w[1..]
  }

  lemma EndsIn(s: string, a: char, b: char, c: char)
    ensures HasSuffix(s, [a, b, c]) <==> |s| >= 3 && s[|s| - 3] == a && s[|s| - 2] == b && s[|s| - 1] == c
    ensures HasSuffix(s, [c]) <==> |s| >= 1 && s[|s| - 1] == c
  {
    if |s| >= 3 && s[|s| - 3] == a && s[|s| - 2] == b && s[|s| - 1] == c { assert s[|s| - 3..] == [a, b, c]; }
    if |s| >= 1 && s[|s| - 1] == c { assert s[|s| - 1..] == [c]; }
  }

  lemma Endings(s: string)
    ensures HasSuffix(s, "ies") <==> |s| >= 3 && s[|s| - 3] == 'i' && s[|s| - 2] == 'e' && s[|s| - 1] == 's'
    ensures HasSuffix(s, "ses") <==> |s| >= 3 && s[|s| - 3] == 's' && s[|s| - 2] == 'e' && s[|s| - 1] == 's'
    ensures HasSuffix(s, "s") <==> |s| >= 1 && s[|s| - 1] == 's'
  {
    EndsIn(s, 'i', 'e', 's');
    EndsIn(s, 's', 'e', 's');
    assert "ies" == ['i', 'e', 's'] && "ses" == ['s', 'e', 's'] && "s" == ['s'];
  }

  /** The guess undoes the plural: "policies" is Policy and "ingresses" is Ingress. */
  lemma GuessUndoesLongPlural(w: string)
    requires w != ""
    ensures DefaultKind(w + "ies") == Capitalised(w) + "y"
    ensures DefaultKind(w + "ses") == Capitalised(w) + "s"
  {
    Endings(w + "ies");
    Endings(w + "ses");
    assert (w + "ies")[1..|w|] == w[1..];
    assert (w + "ses")[1..|w| + 1] == w[1..] + "s";
  }

  /** "pods" is Pod; a name that is no plural keeps its letters. */
  lemma GuessUndoesPlural(w: string)
    requires w != ""
    ensures !(|w| >= 2 && w[|w| - 2] in "is" && w[|w| - 1] == 'e') ==> DefaultKind(w + "s") == Capitalised(w)
    ensures w[|w| - 1] != 's' ==> DefaultKind(w) == Capitalised(w)
  {
    Endings(w + "s");
    Endings(w);
    assert (w + "s")[1..|w|] == w[1..];
  }

  /** kindFor */
  function KindFor(kinds: map<Gvr, string>, gvr: Gvr, o: Object): string {
    if o.kind != "" then o.kind else if gvr in kinds then kinds[gvr] else DefaultKind(gvr.resource)
  }

  function KindsAfter(kinds: map<Gvr, string>, gvr: Gvr, o: Object): map<Gvr, string> {
    if o.kind != "" then kinds[gvr := o.kind] else kinds
  }

  function IdOf(kind: string, o: Object): Id {
    Id(o.namespace, kind, o.name)
  }

  function PlaceholderOf(p: Placeholder): Object {
    Object(SECRET, p.namespace, p.name, "", "", "")
  }

  function Placed(store: map<Id, Object>, ps: seq<Placeholder>): map<Id, Object> {
    if ps == [] then store
    else
      var before := Placed(store, ps[..|ps| - 1]);
      var p := ps[|ps| - 1];
      if p.stored then before[Id(p.namespace, SECRET, p.name) := PlaceholderOf(p)] else before
  }

  predicate HoldsPlaceholder(store: map<Id, Object>, p: Placeholder) {
    Id(p.namespace, SECRET, p.name) in store && store[Id(p.namespace, SECRET, p.name)] == PlaceholderOf(p)
  }

  /** Every placeholder whose write succeeds is in the store afterwards. */
  lemma {:induction false} PlacedHolds(store: map<Id, Object>, ps: seq<Placeholder>, p: Placeholder)
    requires p in ps && p.stored
    ensures HoldsPlaceholder(Placed(store, ps), p)
  {
    var last := ps[|ps| - 1];
    if p in ps[..|ps| - 1] { PlacedHolds(store, ps[..|ps| - 1], p); } else { assert p == last; }
  }

  /** The resource is written unless this very version is known to have been written. */
  predicate Changed(persisted: map<Key, Version>, d: Delivery)
    requires d.Upsert?
  {
    var v := VersionOf(d.item);
    !Versioned(v) || KeyOf(d) !in persisted || persisted[KeyOf(d)] != v
  }

  function Remembered(persisted: map<Key, Version>, d: Delivery): map<Key, Version>
    requires d.Upsert?
  {
    var v := VersionOf(d.item);
    if Versioned(v) then persisted[KeyOf(d) := v] else persisted - {KeyOf(d)}
  }

  function Upserted(s: State, d: Delivery): State
    requires d.Upsert?
  {
    var kind := KindFor(s.kinds, d.gvr, d.item);
    var kinds := KindsAfter(s.kinds, d.gvr, d.item);
    if !Changed(s.persisted, d) then State(s.persisted, kinds, Placed(s.store, d.extracted), s.events)
    else if !d.stored then State(s.persisted, kinds, s.store, s.events)
    else State(Remembered(s.persisted, d), kinds,
        Placed(s.store[IdOf(kind, d.item) := d.item.(kind := kind)], d.extracted),
               s.events + [Event(KeyOf(d), d.change, VersionOf(d.item))])
  }

  function Deleted(s: State, d: Delivery): State
    requires d.Delete?
  {
    var id := IdOf(KindFor(s.kinds, d.gvr, d.item), d.item);
    State(s.persisted - {KeyOf(d)}, KindsAfter(s.kinds, d.gvr, d.item), if d.deleted then s.store - {id} else s.store,
          s.events + [Event(KeyOf(d), Removed, VersionOf(d.item))])
  }

  function Overwritten(store: map<Id, Object>, id: Id, written: Option<Object>): map<Id, Object> {
    if written.Some? then store[id := written.value] else store - {id}
  }

  function Apply(s: State, d: Delivery): State {
    match d
    case Upsert(_, _, _, _, _) => Upserted(s, d)
    case Delete(_, _, _) => Deleted(s, d)
    case Foreign(id, written) => s.(store := Overwritten(s.store, id, written))
  }

  function Reached(ds: seq<Delivery>): State {
    Runs.Run(Apply, INITIAL, ds)
  }

  // ---------------------------------------------------------------------------------
  // The handlers

  class InformerManager {
    var persisted: map<Key, Version>
    var kinds: map<Gvr, string>
    var store: map<Id, Object>
    var events: seq<Event>

    ghost function View(): State
      reads this
    {
      State(persisted, kinds, store, events)
    }

    /** The memo lists only versions that the store holds, and the kind cache only the kinds of the types. */
    ghost predicate Valid(w: Watching, content: (Key, Version) -> string)
      reads this
    {
      Sound(w, content, View())
    }

    /** A sound memo, and a delivery as a proper set of watched types makes it. */
    ghost predicate Expects(w: Watching, content: (Key, Version) -> string, d: Delivery)
      reads this
    {
      Valid(w, content) && Proper(w) && Faithful(w, content, d)
    }

    constructor ()
      ensures View() == INITIAL && forall w, content :: Valid(w, content)
    {
      persisted, kinds, store, events := map[], map[], map[], [];
    }

    /** kindFor: an object without its kind gets the kind last seen for its type, or a guess from the type's name. */
    method ResolveKind(gvr: Gvr, o: Object) returns (kind: string)
      modifies this`kinds
      ensures kind == KindFor(old(kinds), gvr, o) && kinds == KindsAfter(old(kinds), gvr, o)
      ensures o.kind != "" ==> kind == o.kind && gvr in kinds && kinds[gvr] == kind
      ensures o.kind == "" ==> kinds == old(kinds) && (gvr in kinds ==> kind == kinds[gvr])
      ensures forall g | g != gvr :: (g in kinds <==> g in old(kinds)) && (g in kinds ==> kinds[g] == old(kinds)[g])
    {
      if o.kind != "" {
        if gvr in kinds && kinds[gvr] == o.kind {
          assert kinds[gvr := o.kind] == kinds;
          return o.kind;
        }
        kinds := kinds[gvr := o.kind];
        return o.kind;
      }
      if gvr in kinds { return kinds[gvr]; }
      return DefaultKind(gvr.resource);
    }

    method UpsertPlaceholders(ps: seq<Placeholder>)
      modifies this`store
      ensures store == Placed(old(store), ps)
    {
      var i := 0;
      while i < |ps|
        invariant 0 <= i <= |ps|
        invariant store == Placed(old(store), ps[..i])
      {
        assert ps[..i + 1][..i] == ps[..i];
        if ps[i].stored {
          store := store[Id(ps[i].namespace, SECRET, ps[i].name) := PlaceholderOf(ps[i])];
        }
        i := i + 1;
      }
      assert ps[..i] == ps;
    }

    /** The steps of handleUpsert. */
    method Upsert(d: Delivery) returns (wrote: bool)
      requires d.Upsert?
      modifies this
      ensures View() == Upserted(old(View()), d) && wrote == (Changed(old(persisted), d) && d.stored)
    {
      var kind := ResolveKind(d.gvr, d.item);
      var key := KeyOf(d);
      var version := VersionOf(d.item);
      var versioned := version.uid != "" && version.resourceVersion != "";
      var resourceChanged := !versioned || key !in persisted || persisted[key] != version;
      if resourceChanged {
        if !d.stored { return false; }
        store := store[IdOf(kind, d.item) := d.item.(kind := kind)];
        if versioned {
          persisted := persisted[key := version];
        } else {
          persisted := persisted - {key};
        }
        events := events + [Event(key, d.change, version)];
      }
      UpsertPlaceholders(d.extracted);
      return resourceChanged;
    }

    /**
     * handleUpsert. Without a failed write the store afterwards holds the object, whether it was written or skipped;
     * nothing but its own id and Secret placeholders changes.
     */
    method HandleUpsert(d: Delivery, ghost w: Watching, ghost content: (Key, Version) -> string) returns (wrote: bool)
      requires d.Upsert?
      modifies this
      ensures View() == Apply(old(View()), d)
      ensures wrote ==> events == old(events) + [Event(KeyOf(d), d.change, VersionOf(d.item))]
      ensures !wrote ==> events == old(events) && persisted == old(persisted)
      ensures wrote || !Changed(old(persisted), d) ==>
                forall p | p in d.extracted && p.stored ::
                  Id(p.namespace, SECRET, p.name) in store && store[Id(p.namespace, SECRET, p.name)] == PlaceholderOf(p)
      ensures !wrote && Changed(old(persisted), d) ==> store == old(store)
      ensures old(Expects(w, content, d)) ==>
                && Valid(w, content)
                && (wrote || !Changed(old(persisted), d) ==> Holds(store, w, d))
                && forall id: Id | id.kind != SECRET && (!wrote || id != OwnId(w, d)) :: Agree(old(store), store, id)
    {
      if Expects(w, content, d) {
        StepSound(w, content, View(), d);
        UpsertMeaning(w, content, View(), d);
      }
      forall base, p | p in d.extracted && p.stored ensures HoldsPlaceholder(Placed(base, d.extracted), p) {
        PlacedHolds(base, d.extracted, p);
      }
      wrote := Upsert(d);
    }

    /** handleDelete: the memo of the key is gone, so whatever is delivered next for it is written. */
    method HandleDelete(d: Delivery, ghost w: Watching, ghost content: (Key, Version) -> string)
      requires d.Delete?
      modifies this
      ensures View() == Apply(old(View()), d)
      ensures KeyOf(d) !in persisted && forall k | k != KeyOf(d) :: k in persisted <==> k in old(persisted)
      ensures events == old(events) + [Event(KeyOf(d), Removed, VersionOf(d.item))]
      ensures old(Expects(w, content, d)) ==>
                && Valid(w, content)
                && (d.deleted ==> OwnId(w, d) !in store)
                && forall id | !d.deleted || id != OwnId(w, d) :: Agree(old(store), store, id)
    {
      if Expects(w, content, d) {
        StepSound(w, content, View(), d);
        EffectiveKind(w, content, View(), d);
      }
      persisted := persisted - {KeyOf(d)};
      var kind := ResolveKind(d.gvr, d.item);
      if d.deleted { store := store - {IdOf(kind, d.item)}; }
      events := events + [Event(KeyOf(d), Removed, VersionOf(d.item))];
    }
  }

  // ---------------------------------------------------------------------------------
  // A skipped write is a write already done

  /** The kind of each watched type, the kinds that other collectors write to the same store, and whether every
      delivered object carries its kind. */
  datatype Watching = Watching(types: map<Gvr, string>, others: set<string>, named: bool)

  /** Watched types have kinds of their own, none of them Secret or written by others; where objects may come without
      their kind, it can be guessed from the name of the type. */
  ghost predicate Proper(w: Watching) {
    && (forall g | g in w.types ::
          w.types[g] != "" && w.types[g] != SECRET && w.types[g] !in w.others
              && (w.named || DefaultKind(g.resource) == w.types[g]))
    && (forall g, h | g in w.types && h in w.types && w.types[g] == w.types[h] :: g == h)
  }

  /** The object is of a watched type and carries its kind, or none where that may be; a version fixes its content. */
  predicate Faithful(w: Watching, content: (Key, Version) -> string, d: Delivery) {
    if d.Foreign? then d.id.kind in w.others
    else
      && d.gvr in w.types && ((d.item.kind == "" && !w.named) || d.item.kind == w.types[d.gvr])
      && (Versioned(VersionOf(d.item)) ==> d.item.content == content(KeyOf(d), VersionOf(d.item)))
  }

  ghost predicate AllFaithful(w: Watching, content: (Key, Version) -> string, ds: seq<Delivery>) {
    forall i | 0 <= i < |ds| :: Faithful(w, content, ds[i])
  }

  /** The id under which a delivered object belongs, and whether the store holds it there. */
  function OwnId(w: Watching, d: Delivery): Id
    requires !d.Foreign? && d.gvr in w.types
  {
    IdOf(w.types[d.gvr], d.item)
  }

  predicate Holds(store: map<Id, Object>, w: Watching, d: Delivery)
    requires !d.Foreign? && d.gvr in w.types
  {
    OwnId(w, d) in store && store[OwnId(w, d)] == d.item.(kind := w.types[d.gvr])
  }

  function ObjectAt(w: Watching, content: (Key, Version) -> string, k: Key, v: Version): Object
    requires k.gvr in w.types
  {
    Object(w.types[k.gvr], k.namespace, k.name, v.uid, v.resourceVersion, content(k, v))
  }

  /** What the memo says of a key is what the store holds. */
  ghost predicate Backed(w: Watching, content: (Key, Version) -> string, s: State, k: Key)
    requires k in s.persisted
  {
    && Versioned(s.persisted[k]) && k.gvr in w.types
    && var id := Id(k.namespace, w.types[k.gvr], k.name);
       id in s.store && s.store[id] == ObjectAt(w, content, k, s.persisted[k])
  }

  ghost predicate Sound(w: Watching, content: (Key, Version) -> string, s: State) {
    && (forall k | k in s.persisted :: Backed(w, content, s, k))
    && (forall g | g in s.kinds :: g in w.types && s.kinds[g] == w.types[g])
  }

  /** With or without its kind, an object is filed under the kind of its type. */
  lemma EffectiveKind(w: Watching, content: (Key, Version) -> string, s: State, d: Delivery)
    requires Proper(w) && Sound(w, content, s) && !d.Foreign? && Faithful(w, content, d)
    ensures KindFor(s.kinds, d.gvr, d.item) == w.types[d.gvr]
  {
  }

  lemma {:induction false} PlacedKeepsOthers(store: map<Id, Object>, ps: seq<Placeholder>, id: Id)
    requires id.kind != SECRET
    ensures Agree(store, Placed(store, ps), id)
  {
    if ps != [] { PlacedKeepsOthers(store, ps[..|ps| - 1], id); }
  }

  lemma UpsertBacked(w: Watching, content: (Key, Version) -> string, s: State, d: Delivery, k: Key)
    requires Proper(w) && Faithful(w, content, d) && Sound(w, content, s) && d.Upsert? && k in Upserted(s, d).persisted
    ensures Backed(w, content, Upserted(s, d), k)
  {
    EffectiveKind(w, content, s, d);
    if k != KeyOf(d) || !Changed(s.persisted, d) || !d.stored { assert Backed(w, content, s, k); }
    var id := Id(k.namespace, w.types[k.gvr], k.name);
    PlacedKeepsOthers(s.store, d.extracted, id);
    PlacedKeepsOthers(s.store[OwnId(w, d) := d.item.(kind := w.types[d.gvr])], d.extracted, id);
  }

  lemma DeleteBacked(w: Watching, content: (Key, Version) -> string, s: State, d: Delivery, k: Key)
    requires Proper(w) && Faithful(w, content, d) && Sound(w, content, s) && d.Delete? && k in Deleted(s, d).persisted
    ensures Backed(w, content, Deleted(s, d), k)
  {
    EffectiveKind(w, content, s, d);
    assert Backed(w, content, s, k);
  }

  lemma StepBacked(w: Watching, content: (Key, Version) -> string, s: State, d: Delivery, k: Key)
    requires Proper(w) && Faithful(w, content, d) && Sound(w, content, s) && k in Apply(s, d).persisted
    ensures Backed(w, content, Apply(s, d), k)
  {
    match d
    case Upsert(_, _, _, _, _) => UpsertBacked(w, content, s, d, k);
    case Delete(_, _, _) => DeleteBacked(w, content, s, d, k);
    case Foreign(_, _) => assert Backed(w, content, s, k);
  }

  lemma StepSound(w: Watching, content: (Key, Version) -> string, s: State, d: Delivery)
    requires Proper(w) && Faithful(w, content, d) && Sound(w, content, s)
    ensures Sound(w, content, Apply(s, d))
  {
    forall k | k in Apply(s, d).persisted ensures Backed(w, content, Apply(s, d), k) {
      StepBacked(w, content, s, d, k);
    }
  }

  /** What one upsert does to the store. */
  lemma UpsertMeaning(w: Watching, content: (Key, Version) -> string, s: State, d: Delivery)
    requires Proper(w) && Faithful(w, content, d) && Sound(w, content, s) && d.Upsert?
    ensures d.stored || !Changed(s.persisted, d) ==> Holds(Upserted(s, d).store, w, d)
    ensures forall id: Id | id.kind != SECRET && (!(Changed(s.persisted, d) && d.stored) || id != OwnId(w, d)) ::
              Agree(s.store, Upserted(s, d).store, id)
  {
    EffectiveKind(w, content, s, d);
    var own := OwnId(w, d);
    var written := s.store[own := d.item.(kind := w.types[d.gvr])];
    if !Changed(s.persisted, d) { assert Backed(w, content, s, KeyOf(d)); }
    forall id: Id | id.kind != SECRET ensures Agree(s.store, Placed(s.store, d.extracted), id)
        && Agree(written, Placed(written, d.extracted), id) {
      PlacedKeepsOthers(s.store, d.extracted, id);
      PlacedKeepsOthers(written, d.extracted, id);
    }
    assert own.kind != SECRET;
  }

  /** On every run of deliveries, store failures and foreign writes the memo lists only versions the store holds. */
  lemma {:induction false} MemoIsBacked(w: Watching, content: (Key, Version) -> string, ds: seq<Delivery>)
    requires Proper(w) && AllFaithful(w, content, ds)
    ensures Sound(w, content, Reached(ds))
  {
    if ds != [] {
      var n := |ds| - 1;
      MemoIsBacked(w, content, ds[..n]);
      StepSound(w, content, Reached(ds[..n]), ds[n]);
      Runs.RunLast(Apply, INITIAL, ds);
    }
  }

  /** A skipped write: the store already holds exactly this object, delivered with its kind or without. */
  lemma SkippedMeansStored(w: Watching, content: (Key, Version) -> string, ds: seq<Delivery>, d: Delivery)
    requires Proper(w) && AllFaithful(w, content, ds) && d.Upsert? && Faithful(w, content, d)
    requires !Changed(Reached(ds).persisted, d)
    ensures Holds(Reached(ds).store, w, d)
  {
    MemoIsBacked(w, content, ds);
    assert Backed(w, content, Reached(ds), KeyOf(d));
  }

  /** After a failed write the next delivery of that version writes again, whatever other keys deliver in between. */
  lemma {:induction false} FailedWriteIsRetried(s: State, d: Delivery, ds: seq<Delivery>, next: Delivery)
    requires d.Upsert? && next.Upsert? && Changed(s.persisted, d) && !d.stored
    requires KeyOf(next) == KeyOf(d) && VersionOf(next.item) == VersionOf(d.item)
    requires forall i | 0 <= i < |ds| :: ds[i].Foreign? || KeyOf(ds[i]) != KeyOf(d)
    ensures Changed(Runs.Run(Apply, Apply(s, d), ds).persisted, next)
    decreases |ds|
  {
    if ds != [] {
      FailedWriteIsRetried(s, d, ds[..|ds| - 1], next);
      Runs.RunLast(Apply, Apply(s, d), ds);
    }
  }

  // ---------------------------------------------------------------------------------
  // The same store as without the memo

  /** The handlers without the memo: every upsert writes. */
  datatype Memoless = Memoless(kinds: map<Gvr, string>, store: map<Id, Object>)

  function AlwaysWrite(a: Memoless, d: Delivery): Memoless {
    if d.Foreign? then a.(store := Overwritten(a.store, d.id, d.written))
    else
      var kind := KindFor(a.kinds, d.gvr, d.item);
      var id := IdOf(kind, d.item);
      Memoless(KindsAfter(a.kinds, d.gvr, d.item),
               if d.Delete? then if d.deleted then a.store - {id} else a.store
               else if !d.stored then a.store
               else Placed(a.store[id := d.item.(kind := kind)], d.extracted))
  }

  function AlwaysReached(ds: seq<Delivery>): Memoless {
    Runs.Run(AlwaysWrite, Memoless(map[], map[]), ds)
  }

  ghost predicate Agree(a: map<Id, Object>, b: map<Id, Object>, id: Id) {
    (id in a <==> id in b) && (id in a ==> a[id] == b[id])
  }

  lemma StepAgrees(w: Watching, content: (Key, Version) -> string, s: State, a: Memoless, d: Delivery, id: Id)
    requires Proper(w) && Faithful(w, content, d) && Sound(w, content, s)
    requires id.kind != SECRET && Agree(s.store, a.store, id) && a.kinds == s.kinds
    ensures Agree(Apply(s, d).store, AlwaysWrite(a, d).store, id) && AlwaysWrite(a, d).kinds == Apply(s, d).kinds
  {
    if d.Upsert? {
      EffectiveKind(w, content, s, d);
      UpsertMeaning(w, content, s, d);
      PlacedKeepsOthers(a.store[OwnId(w, d) := d.item.(kind := w.types[d.gvr])], d.extracted, id);
    }
  }

  /**
   * Suppressing writes refines always writing: whatever is delivered and whichever writes fail, both leave the same
   * resource under every identity but the Secret placeholders.
   */
  lemma {:induction false} SuppressionRefinesAlwaysWrite(w: Watching, content: (Key, Version) -> string,
                                                         ds: seq<Delivery>, id: Id)
    requires Proper(w) && AllFaithful(w, content, ds) && id.kind != SECRET
    ensures Agree(Reached(ds).store, AlwaysReached(ds).store, id) && AlwaysReached(ds).kinds == Reached(ds).kinds
  {
    if ds != [] {
      var n := |ds| - 1;
      SuppressionRefinesAlwaysWrite(w, content, ds[..n], id);
      MemoIsBacked(w, content, ds[..n]);
      StepAgrees(w, content, Reached(ds[..n]), AlwaysReached(ds[..n]), ds[n], id);
      Runs.RunLast(Apply, INITIAL, ds);
      Runs.RunLast(AlwaysWrite, Memoless(map[], map[]), ds);
    }
  }

  // ---------------------------------------------------------------------------------
  // History

  /** The last event of a key. */
  function LastEvent(events: seq<Event>, k: Key): Option<Event> {
    if events == [] then None
    else if events[|events| - 1].key == k then Some(events[|events| - 1])
    else LastEvent(events[..|events| - 1], k)
  }

  /** The newest event of a key tells what the memo holds for it. */
  ghost predicate Told(events: seq<Event>, persisted: map<Key, Version>, k: Key) {
    match LastEvent(events, k)
    case None => k !in persisted
    case Some(e) =>
      if e.change == Removed || !Versioned(e.version) then k !in persisted
      else k in persisted && persisted[k] == e.version
  }

  lemma LastAppended(events: seq<Event>, e: Event, k: Key)
    ensures LastEvent(events + [e], k) == if e.key == k then Some(e) else LastEvent(events, k)
  {
    assert (events + [e])[..|events|] == events;
  }

  lemma StepTold(s: State, d: Delivery, k: Key)
    requires Told(s.events, s.persisted, k) && (d.Upsert? ==> d.change != Removed)
    ensures Told(Apply(s, d).events, Apply(s, d).persisted, k)
  {
    if !d.Foreign? {
      LastAppended(s.events, Event(KeyOf(d), if d.Upsert? then d.change else Removed, VersionOf(d.item)), k);
    }
  }

  lemma {:induction false} EventsTellTheMemo(ds: seq<Delivery>, k: Key)
    requires forall d | d in ds :: d.Upsert? ==> d.change != Removed
    ensures Told(Reached(ds).events, Reached(ds).persisted, k)
  {
    if ds != [] {
      var n := |ds| - 1;
      EventsTellTheMemo(ds[..n], k);
      assert ds[n] in ds;
      StepTold(Reached(ds[..n]), ds[n], k);
      Runs.RunLast(Apply, INITIAL, ds);
    }
  }

  /** Two events of one key with no other event of that key between them. */
  ghost predicate Consecutive(events: seq<Event>, a: nat, b: nat) {
    a < b < |events| && events[a].key == events[b].key && forall c | a < c < b :: events[c].key != events[a].key
  }

  /** No version is recorded twice in a row. */
  ghost predicate NoRepeats(events: seq<Event>) {
    forall a: nat, b: nat | Consecutive(events, a, b) && events[a].change != Removed && events[b].change != Removed
        && Versioned(events[b].version) ::
      events[a].version != events[b].version
  }

  lemma {:induction false} LastOfKey(events: seq<Event>, a: nat)
    requires a < |events| && forall c | a < c < |events| :: events[c].key != events[a].key
    ensures LastEvent(events, events[a].key) == Some(events[a])
  {
    if a < |events| - 1 { LastOfKey(events[..|events| - 1], a); }
  }

  lemma ConsecutiveInPrefix(events: seq<Event>, e: Event, a: nat, b: nat)
    requires Consecutive(events + [e], a, b)
    ensures b < |events| ==> Consecutive(events, a, b)
    ensures b == |events| ==> e.key == events[a].key && LastEvent(events, e.key) == Some(events[a])
  {
    var longer := events + [e];
    assert forall c | 0 <= c < |events| :: longer[c] == events[c];
    if b == |events| { LastOfKey(events, a); }
  }

  lemma StepNoRepeats(s: State, d: Delivery)
    requires NoRepeats(s.events) && (!d.Foreign? ==> Told(s.events, s.persisted, KeyOf(d)))
    ensures NoRepeats(Apply(s, d).events)
  {
    var t := Apply(s, d);
    if t.events != s.events {
      var e := t.events[|s.events|];
      assert t.events == s.events + [e];
      forall a: nat, b: nat | Consecutive(t.events, a, b) && t.events[a].change != Removed
          && t.events[b].change != Removed
                    && Versioned(t.events[b].version)
        ensures t.events[a].version != t.events[b].version
      {
        ConsecutiveInPrefix(s.events, e, a, b);
      }
    }
  }

  /** History never shows one version of a key twice in a row, for every run of deliveries and failures. */
  lemma {:induction false} HistoryNeverRepeats(ds: seq<Delivery>)
    requires forall d | d in ds :: d.Upsert? ==> d.change != Removed
    ensures NoRepeats(Reached(ds).events)
  {
    if ds != [] {
      var n := |ds| - 1;
      HistoryNeverRepeats(ds[..n]);
      if !ds[n].Foreign? { EventsTellTheMemo(ds[..n], KeyOf(ds[n])); }
      StepNoRepeats(Reached(ds[..n]), ds[n]);
      Runs.RunLast(Apply, INITIAL, ds);
    }
  }

  /** An object without a UID or a resource version is recorded each time it is stored. */
  lemma UnversionedRepeats(s: State, d: Delivery)
    requires d.Upsert? && d.stored && !Versioned(VersionOf(d.item))
    ensures var t := Apply(Apply(s, d), d);
            |t.events| == |s.events| + 2 && t.events[|s.events|] == t.events[|s.events| + 1]
  {
  }

  // ---------------------------------------------------------------------------------
  // Exactly when skipping is sound

  /** If the write of d is skipped after ds, the store holds d. */
  ghost predicate SkipSound(w: Watching, content: (Key, Version) -> string, ds: seq<Delivery>, d: Delivery) {
    AllFaithful(w, content, ds) && d.Upsert? && Faithful(w, content, d) && !Changed(Reached(ds).persisted, d)
    ==> Holds(Reached(ds).store, w, d)
  }

  function Sample(g: Gvr, kind: string, resourceVersion: string, extracted: seq<Placeholder>): Delivery {
    Upsert(g, Object(kind, "shop", "web", "u1", resourceVersion, "spec"), Add, true, extracted)
  }

  lemma ReachedOne(d: Delivery)
    ensures Reached([d]) == Apply(INITIAL, d)
  {
    Runs.RunLast(Apply, INITIAL, [d]);
    assert [d][..0] == [];
  }

  lemma ReachedTwo(d: Delivery, e: Delivery)
    ensures Reached([d, e]) == Apply(Apply(INITIAL, d), e)
  {
    Runs.RunLast(Apply, INITIAL, [d, e]);
    assert [d, e][..1] == [d];
    ReachedOne(d);
  }

  /** Two watched types that share a kind: the second overwrites the first, whose next delivery is then skipped. */
  lemma SharedKindGoesStale(w: Watching, content: (Key, Version) -> string, g: Gvr, h: Gvr)
    requires g in w.types && h in w.types && g != h && w.types[g] == w.types[h] != ""
    requires forall k, v :: content(k, v) == "spec"
    ensures !SkipSound(w, content, [Sample(g, w.types[g], "7", []), Sample(h, w.types[h], "8", [])],
              Sample(g, w.types[g], "7", []))
  {
    var first, second := Sample(g, w.types[g], "7", []), Sample(h, w.types[h], "8", []);
    ReachedTwo(first, second);
    assert first.item.resourceVersion[0] == '7' && second.item.resourceVersion[0] == '8';
    assert Reached([first, second]).store[Id("shop", w.types[g], "web")] == second.item;
  }

  /** A watched Secret would be overwritten by its own placeholder. */
  lemma WatchedSecretGoesStale(w: Watching, content: (Key, Version) -> string, g: Gvr)
    requires g in w.types && w.types[g] == SECRET
    requires forall k, v :: content(k, v) == "spec"
    ensures var d := Sample(g, SECRET, "7", [Placeholder("shop", "web", true)]); !SkipSound(w, content, [d], d)
  {
    var p := Placeholder("shop", "web", true);
    var d := Sample(g, SECRET, "7", [p]);
    ReachedOne(d);
    assert [p][..0] == [];
    assert Reached([d]).store[Id("shop", SECRET, "web")] == PlaceholderOf(p);
  }

  /** A kind that another collector writes too: its write replaces or removes what the memo remembers. */
  lemma ForeignWriteGoesStale(w: Watching, content: (Key, Version) -> string, g: Gvr)
    requires g in w.types && w.types[g] in w.others && w.types[g] != ""
    requires forall k, v :: content(k, v) == "spec"
    ensures var d := Sample(g, w.types[g], "7", []);
            !SkipSound(w, content, [d, Foreign(Id("shop", w.types[g], "web"), None)], d)
  {
    ReachedTwo(Sample(g, w.types[g], "7", []), Foreign(Id("shop", w.types[g], "web"), None));
  }

  /** A first delivery without its kind is stored under a guessed one; the next, with its kind, is then skipped. */
  lemma UnnamedKindGoesStale(w: Watching, content: (Key, Version) -> string, g: Gvr)
    requires g in w.types && w.types[g] != "" && !w.named && DefaultKind(g.resource) != w.types[g]
    requires forall k, v :: content(k, v) == "spec"
    ensures !SkipSound(w, content, [Sample(g, "", "7", [])], Sample(g, w.types[g], "7", []))
  {
    var guess := DefaultKind(g.resource);
    ReachedOne(Sample(g, "", "7", []));
    assert Reached([Sample(g, "", "7", [])]).store
           == map[Id("shop", guess, "web") := Object(guess, "shop", "web", "u1", "7", "spec")];
  }

  /**
   * Skipping is sound on every run exactly when the watched types have kinds of their own, none of them Secret or
   * written by another collector, and, where objects may come without their kind, each kind is the one guessed from
   * the name of its type.
   */
  lemma SkipsSoundExactlyWhenProper(w: Watching)
    requires forall g | g in w.types :: w.types[g] != ""
    ensures Proper(w) <==> forall content, ds, d :: SkipSound(w, content, ds, d)
  {
    if Proper(w) {
      forall content, ds, d ensures SkipSound(w, content, ds, d) {
        if AllFaithful(w, content, ds) && d.Upsert? && Faithful(w, content, d) && !Changed(Reached(ds).persisted, d) {
          SkippedMeansStored(w, content, ds, d);
        }
      }
    } else {
      ImproperGoesStale(w, (k, v) => "spec");
    }
  }

  lemma ImproperGoesStale(w: Watching, content: (Key, Version) -> string)
    requires !Proper(w) && forall g | g in w.types :: w.types[g] != ""
    requires forall k, v :: content(k, v) == "spec"
    ensures exists ds, d :: !SkipSound(w, content, ds, d)
  {
    if g :| g in w.types && w.types[g] == SECRET {
      WatchedSecretGoesStale(w, content, g);
    } else if g :| g in w.types && w.types[g] in w.others {
      ForeignWriteGoesStale(w, content, g);
    } else if g :| g in w.types && !w.named && DefaultKind(g.resource) != w.types[g] {
      UnnamedKindGoesStale(w, content, g);
    } else {
      var g, h :| g in w.types && h in w.types && w.types[g] == w.types[h] && g != h;
      SharedKindGoesStale(w, content, g, h);
    }
  }

  /** The core ConfigMap type is such a type: the guess from "configmaps" is not its kind. */
  lemma ConfigMapsAreGuessedWrong()
    ensures DefaultKind("configmaps") != "ConfigMap"
  {
    assert DefaultKind("configmaps")[6] == 'm' && "ConfigMap"[6] == 'M';
  }

  // ---------------------------------------------------------------------------------
  // What the memo and the kind cache remember

  /** The delivery writes its resource: the store takes it, and it is not the version remembered before. */
  predicate Writes(d: Delivery, key: Key, before: Option<Version>) {
    d.Upsert? && KeyOf(d) == key && d.stored
    && (d.item.uid == "" || d.item.resourceVersion == "" || before != Some(VersionOf(d.item)))
  }

  /** The version of the last write of a key that was not followed by a delete, if it had both a UID and a version. */
  function LastWritten(ds: seq<Delivery>, key: Key): Option<Version> {
    if ds == [] then None
    else
      var d, before := ds[|ds| - 1], LastWritten(ds[..|ds| - 1], key);
      if d.Delete? && KeyOf(d) == key then None
      else if Writes(d, key, before) then
        if d.item.uid != "" && d.item.resourceVersion != "" then Some(VersionOf(d.item)) else None
      else before
  }

  function Recalled(persisted: map<Key, Version>, key: Key): Option<Version> {
    if key in persisted then Some(persisted[key]) else None
  }

  /** The memo of a key is its last write. */
  lemma {:induction false} MemoIsTheLastWrite(ds: seq<Delivery>, key: Key)
    ensures Recalled(Reached(ds).persisted, key) == LastWritten(ds, key)
    ensures forall v | Recalled(Reached(ds).persisted, key) == Some(v) :: v.uid != "" && v.resourceVersion != ""
  {
    if ds != [] {
      MemoIsTheLastWrite(ds[..|ds| - 1], key);
      Runs.RunLast(Apply, INITIAL, ds);
    }
  }

  /** A stored delivery is announced exactly when it is not the remembered version; without a UID or a version it always
      is. */
  lemma AnnouncedExactlyWhenWritten(ds: seq<Delivery>, d: Delivery)
    requires d.Upsert?
    ensures Apply(Reached(ds), d).events
            == Reached(ds).events + if Writes(d, KeyOf(d), LastWritten(ds, KeyOf(d)))
                                    then [Event(KeyOf(d), d.change, VersionOf(d.item))] else []
  {
    MemoIsTheLastWrite(ds, KeyOf(d));
  }

  /** The kind of the last delivery of a type that named one. */
  function LastKind(ds: seq<Delivery>, gvr: Gvr): Option<string> {
    if ds == [] then None
    else
      var d := ds[|ds| - 1];
      if !d.Foreign? && d.gvr == gvr && d.item.kind != "" then Some(d.item.kind) else LastKind(ds[..|ds| - 1], gvr)
  }

  lemma {:induction false} KindIsTheLastSeen(ds: seq<Delivery>, gvr: Gvr)
    ensures LastKind(ds, gvr) == if gvr in Reached(ds).kinds then Some(Reached(ds).kinds[gvr]) else None
  {
    if ds != [] {
      KindIsTheLastSeen(ds[..|ds| - 1], gvr);
      Runs.RunLast(Apply, INITIAL, ds);
    }
  }
}
