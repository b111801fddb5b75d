/** The coverage tracker as the mutable object the source uses, refining the state machine of
    CoverageModel operation by operation.

    The source keeps sessions and rows behind pointers, and a type token shares its row with
    its parent. Here `sessions` and `rows` hold all that was ever allocated and a pointer is an
    index into them, so sharing, and comparing rows by pointer, are explicit. */
module CoverageTracker {
  import opened Options
  import opened CoverageModel
  import opened CoverageRuns

  /** Two minutes, in nanoseconds. */
  const DEFAULT_STALE_AFTER: int := 120_000_000_000

  /** CoverageSession: a root, or the token of one type registration. */
  datatype Record =
    | RootRecord(generation: nat, cluster: string, source: Source, resources: map<Gvr, nat>,
                 limited: bool, discovery: Option<Discovery>, stopped: bool)
    | TokenRecord(parent: nat, gvr: Gvr, row: nat, stopped: bool)

  // ---------------------------------------------------------------------------------
  // What the pointers mean

  ghost predicate Stored(x: Record, rows: seq<Row>) {
    && (x.RootRecord? ==> forall g | g in x.resources :: x.resources[g] < |rows|)
    && (x.TokenRecord? ==> x.row < |rows|)
  }

  ghost predicate AllStored(sessions: seq<Record>, rows: seq<Row>) {
    forall i | 0 <= i < |sessions| :: Stored(sessions[i], rows)
  }

  ghost function RecordView(x: Record, rows: seq<Row>): Session
    requires Stored(x, rows)
  {
    match x
    case RootRecord(generation, cluster, source, resources, limited, discovery, stopped) =>
      Root(generation, cluster, source, map g | g in resources :: rows[resources[g]], limited, discovery, stopped)
    case TokenRecord(parent, gvr, row, stopped) =>
      Child(parent, gvr, rows[row].serial, stopped)
  }

  ghost function Views(sessions: seq<Record>, rows: seq<Row>): (v: seq<Session>)
    requires AllStored(sessions, rows)
    ensures |v| == |sessions| && forall i | 0 <= i < |v| :: v[i] == RecordView(sessions[i], rows)
  {
    seq(|sessions|, i requires 0 <= i < |sessions| => RecordView(sessions[i], rows))
  }

  /** Each row belongs to one root (`homes`) and one type; a positive serial names one row. */
  ghost predicate RecordOwns(x: Record, i: nat, rows: seq<Row>, homes: seq<nat>)
    requires Stored(x, rows) && |homes| == |rows|
  {
    && (x.RootRecord? ==> forall g | g in x.resources :: homes[x.resources[g]] == i && rows[x.resources[g]].gvr == g)
    && (x.TokenRecord? ==> homes[x.row] == x.parent && rows[x.row].gvr == x.gvr && rows[x.row].serial > 0)
  }

  ghost predicate Owned(sessions: seq<Record>, rows: seq<Row>, homes: seq<nat>) {
    && |homes| == |rows| && AllStored(sessions, rows)
    && (forall i | 0 <= i < |sessions| :: RecordOwns(sessions[i], i, rows, homes))
  }

  ghost predicate SerialsName(rows: seq<Row>, nextSerial: nat) {
    && (forall a | 0 <= a < |rows| :: rows[a].serial <= nextSerial)
    && (forall a, b | 0 <= a < |rows| && 0 <= b < |rows| && rows[a].serial == rows[b].serial
       && rows[a].serial > 0 :: a == b)
  }

  /** Writing row `p` shows at the root and type it belongs to, and nowhere else. */
  lemma WriteVisibleAtHome(sessions: seq<Record>, rows: seq<Row>, homes: seq<nat>, p: nat, row: Row, k: nat)
    requires Owned(sessions, rows, homes) && p < |rows| && k < |sessions| && sessions[k].RootRecord?
    requires row.gvr in sessions[k].resources && sessions[k].resources[row.gvr] == p && row.serial == rows[p].serial
    ensures Owned(sessions, rows[p := row], homes)
    ensures Views(sessions, rows)[k].Root?
    ensures Views(sessions, rows[p := row])
            == var v := Views(sessions, rows); v[k := v[k].(rows := v[k].rows[row.gvr := row])]
  {
    var after := rows[p := row];
    assert RecordOwns(sessions[k], k, rows, homes);
    forall i | 0 <= i < |sessions|
      ensures Stored(sessions[i], after) && RecordOwns(sessions[i], i, after, homes)
      ensures i != k ==> RecordView(sessions[i], after) == RecordView(sessions[i], rows)
    {
      assert Stored(sessions[i], rows) && RecordOwns(sessions[i], i, rows, homes);
    }
    assert RecordView(sessions[k], after).rows == RecordView(sessions[k], rows).rows[row.gvr := row];
  }

  lemma WriteKeepsSerials(rows: seq<Row>, nextSerial: nat, p: nat, row: Row)
    requires SerialsName(rows, nextSerial) && p < |rows| && row.serial == rows[p].serial
    ensures SerialsName(rows[p := row], nextSerial)
  {
    var after := rows[p := row];
    assert forall a | 0 <= a < |after| :: after[a].serial == rows[a].serial;
  }

  /** `resources` files freshly allocated rows that hold `wanted`. */
  ghost predicate Allocated(resources: map<Gvr, nat>, rows: seq<Row>, pool: seq<Row>, wanted: map<Gvr, Row>) {
    && rows <= pool && resources.Keys == wanted.Keys
    && (forall g | g in resources :: |rows| <= resources[g] < |pool| && pool[resources[g]] == wanted[g])
    && (forall a | |rows| <= a < |pool| :: pool[a].serial == 0)
  }

  /** The rows of a new root: a stopped copy of every inherited row, a fresh row for every requested
      type that keeps the known gaps, and the revision of all of them restarted. */
  method BuildRows(inherited: map<Gvr, nat>, rows: seq<Row>, gvrs: seq<Gvr>, now: Time)
    returns (resources: map<Gvr, nat>, pool: seq<Row>)
    requires forall g | g in inherited :: inherited[g] < |rows|
    ensures Allocated(resources, rows, pool, BegunRows(map g | g in inherited :: rows[inherited[g]], gvrs, now))
  {
    ghost var prior := map g | g in inherited :: rows[inherited[g]];
    resources, pool := CopyStopped(inherited, rows, now);
    var i := 0;
    while i < |gvrs|
      invariant 0 <= i <= |gvrs|
      invariant Drafted(resources, rows, pool, BegunRows(prior, gvrs[..i], now))
    {
      var g := gvrs[i];
      var r := DraftRow(inherited, rows, g, now, prior);
      DraftNext(resources, rows, pool, prior, gvrs, i, now, r);
      resources := resources[g := |pool|];
      pool := pool + [r];
      i := i + 1;
      assert Drafted(resources, rows, pool, BegunRows(prior, gvrs[..i], now));
    }
    assert gvrs[..i] == gvrs;
    pool := RestartRevisions(rows, pool);
  }

  method DraftRow(inherited: map<Gvr, nat>, rows: seq<Row>, g: Gvr, now: Time, ghost prior: map<Gvr, Row>)
    returns (r: Row)
    requires inherited.Keys == prior.Keys
    requires forall h | h in inherited :: inherited[h] < |rows| && rows[inherited[h]] == prior[h]
    ensures r.serial == 0 && r.(revision := 1) == Fresh(g, RowAt(prior, g), 0, 1, now)
  {
    r := Fresh(g, None, 0, 0, now);
    if g in inherited {
      var was := rows[inherited[g]];
      r := r.(processingGap := was.processingGap, extractionGap := was.extractionGap,
              persistenceGap := was.persistenceGap);
    }
  }

  lemma DraftOne(resources: map<Gvr, nat>, rows: seq<Row>, pool: seq<Row>, wanted: map<Gvr, Row>, g: Gvr, r: Row)
    requires Drafted(resources, rows, pool, wanted) && r.serial == 0
    ensures Drafted(resources[g := |pool|], rows, pool + [r], wanted[g := r.(revision := 1)])
  {
  }

  lemma DraftNext(resources: map<Gvr, nat>, rows: seq<Row>, pool: seq<Row>, prior: map<Gvr, Row>, gvrs: seq<Gvr>,
                  i: nat, now: Time, r: Row)
    requires i < |gvrs| && Drafted(resources, rows, pool, BegunRows(prior, gvrs[..i], now))
    requires r.serial == 0 && r.(revision := 1) == Fresh(gvrs[i], RowAt(prior, gvrs[i]), 0, 1, now)
    ensures Drafted(resources[gvrs[i] := |pool|], rows, pool + [r], BegunRows(prior, gvrs[..i + 1], now))
  {
    BegunRowsNext(prior, gvrs, i, now);
    DraftOne(resources, rows, pool, BegunRows(prior, gvrs[..i], now), gvrs[i], r);
  }

  /** As Allocated, before the revisions were restarted. */
  ghost predicate Drafted(resources: map<Gvr, nat>, rows: seq<Row>, pool: seq<Row>, wanted: map<Gvr, Row>) {
    && rows <= pool && resources.Keys == wanted.Keys
    && (forall g | g in resources :: |rows| <= resources[g] < |pool| && pool[resources[g]].(revision := 1) == wanted[g])
    && (forall a | |rows| <= a < |pool| :: pool[a].serial == 0)
  }

  method CopyStopped(inherited: map<Gvr, nat>, rows: seq<Row>, now: Time)
    returns (resources: map<Gvr, nat>, pool: seq<Row>)
    requires forall g | g in inherited :: inherited[g] < |rows|
    ensures Drafted(resources, rows, pool, BegunRows(map g | g in inherited :: rows[inherited[g]], [], now))
  {
    resources, pool := map[], rows;
    var todo := inherited.Keys;
    while todo != {}
      invariant rows <= pool && todo <= inherited.Keys
      invariant forall g | g in inherited :: g in todo || g in resources
      invariant forall g | g in resources :: g in inherited && |rows| <= resources[g] < |pool|
                  && pool[resources[g]].(revision := 1) == Inherited(rows[inherited[g]], now)
      invariant forall a | |rows| <= a < |pool| :: pool[a].serial == 0
      decreases todo
    {
      var g :| g in todo;
      var r := rows[inherited[g]].(serial := 0, stopped := true, established := false);
      if r.watchGap == 0 { r := r.(watchGap := now); }
      resources := resources[g := |pool|];
      pool := pool + [r];
      todo := todo - {g};
    }
    assert resources.Keys == inherited.Keys;
  }

  method RestartRevisions(rows: seq<Row>, drafted: seq<Row>) returns (pool: seq<Row>)
    requires rows <= drafted
    ensures |pool| == |drafted| && rows <= pool
    ensures forall a | |rows| <= a < |drafted| :: pool[a] == drafted[a].(revision := 1)
  {
    pool := drafted;
    var a := |rows|;
    while a < |drafted|
      invariant |rows| <= a <= |drafted| == |pool| && rows <= pool
      invariant forall b | |rows| <= b < a :: pool[b] == drafted[b].(revision := 1)
      invariant forall b | a <= b < |drafted| :: pool[b] == drafted[b]
    {
      pool := pool[a := pool[a].(revision := 1)];
      a := a + 1;
    }
  }

  lemma BegunRowsNext(prior: map<Gvr, Row>, gvrs: seq<Gvr>, i: nat, now: Time)
    requires i < |gvrs|
    ensures BegunRows(prior, gvrs[..i + 1], now)
            == BegunRows(prior, gvrs[..i], now)[gvrs[i] := Fresh(gvrs[i], RowAt(prior, gvrs[i]), 0, 1, now)]
  {
    assert gvrs[..i + 1] == gvrs[..i] + [gvrs[i]];
    var a, b := BegunRows(prior, gvrs[..i + 1], now), BegunRows(prior, gvrs[..i], now);
    forall g ensures g in a <==> g in b || g == gvrs[i] {
      if g in gvrs[..i + 1] { var j :| 0 <= j < i + 1 && gvrs[..i + 1][j] == g; }
    }
  }

  lemma BegunRowsKeyed(s: State, cluster: string, source: Source, gvrs: seq<Gvr>, now: Time)
    requires Inv(s) && BeginAccepted(s, cluster, source, gvrs, now)
    ensures forall g | g in BegunRows(PreviousRows(s, cluster, source), gvrs, now) ::
              BegunRows(PreviousRows(s, cluster, source), gvrs, now)[g].gvr == g
  {
    PreviousRowsOk(s, cluster, source);
    BegunRowsOk(PreviousRows(s, cluster, source), gvrs, now, s.nextSerial);
  }

  lemma SameSize<A, B>(a: map<Gvr, A>, b: map<Gvr, B>)
    requires a.Keys == b.Keys
    ensures |a| == |b|
  {
    assert |a| == |a.Keys| && |b| == |b.Keys|;
  }

  /** Allocating rows keeps what the old pointers mean. */
  lemma GrowKeepsOwnership(sessions: seq<Record>, rows: seq<Row>, homes: seq<nat>, pool: seq<Row>, homed: seq<nat>)
    requires Owned(sessions, rows, homes) && rows <= pool && homes <= homed && |homed| == |pool|
    ensures Owned(sessions, pool, homed) && Views(sessions, pool) == Views(sessions, rows)
  {
    forall i | 0 <= i < |sessions|
      ensures Stored(sessions[i], pool) && RecordOwns(sessions[i], i, pool, homed)
      ensures RecordView(sessions[i], pool) == RecordView(sessions[i], rows)
    {
      assert Stored(sessions[i], rows) && RecordOwns(sessions[i], i, rows, homes);
    }
  }

  lemma GrowKeepsSerials(rows: seq<Row>, pool: seq<Row>, nextSerial: nat)
    requires SerialsName(rows, nextSerial) && rows <= pool
    requires forall a | |rows| <= a < |pool| :: pool[a].serial == 0
    ensures SerialsName(pool, nextSerial)
  {
    assert forall a | 0 <= a < |rows| :: pool[a] == rows[a];
  }

  /** A new root over freshly allocated rows. */
  lemma RecordAdded(sessions: seq<Record>, rows: seq<Row>, homed: seq<nat>, pool: seq<Row>, record: Record,
                    wanted: map<Gvr, Row>)
    requires Owned(sessions, pool, homed) && record.RootRecord?
    requires Allocated(record.resources, rows, pool, wanted) && forall g | g in wanted :: wanted[g].gvr == g
    requires forall a | |rows| <= a < |pool| :: homed[a] == |sessions|
    ensures Owned(sessions + [record], pool, homed)
    ensures Views(sessions + [record], pool)
            == Views(sessions, pool) + [Root(record.generation, record.cluster, record.source, wanted, record.limited,
               record.discovery, record.stopped)]
  {
    var after := sessions + [record];
    assert Stored(record, pool) && RecordOwns(record, |sessions|, pool, homed);
    forall i | 0 <= i < |after| ensures Stored(after[i], pool) && RecordOwns(after[i], i, pool, homed) {
      if i < |sessions| { assert Stored(sessions[i], pool) && RecordOwns(sessions[i], i, pool, homed); }
    }
    assert RecordView(record, pool).rows == wanted;
  }

  function Registered(sessions: seq<Record>, sid: nat, gvr: Gvr, p: nat): seq<Record>
    requires sid < |sessions| && sessions[sid].RootRecord?
  {
    sessions[sid := sessions[sid].(resources := sessions[sid].resources[gvr := p])] + [TokenRecord(sid, gvr, p, false)]
  }

  /** Registering a type: its row goes to the root and the token shares it. */
  lemma TokenOwned(sessions: seq<Record>, rows: seq<Row>, homes: seq<nat>, sid: nat, gvr: Gvr, p: nat)
    requires Owned(sessions, rows, homes) && sid < |sessions| && sessions[sid].RootRecord?
    requires p < |rows| && homes[p] == sid && rows[p].gvr == gvr && rows[p].serial > 0
    ensures Owned(Registered(sessions, sid, gvr, p), rows, homes)
  {
    var after := Registered(sessions, sid, gvr, p);
    forall i | 0 <= i < |after| ensures Stored(after[i], rows) && RecordOwns(after[i], i, rows, homes) {
      if i < |sessions| { assert Stored(sessions[i], rows) && RecordOwns(sessions[i], i, rows, homes); }
    }
  }

  lemma TokenViews(sessions: seq<Record>, rows: seq<Row>, sid: nat, gvr: Gvr, p: nat)
    requires sid < |sessions| && sessions[sid].RootRecord? && p < |rows|
    requires AllStored(sessions, rows) && AllStored(Registered(sessions, sid, gvr, p), rows)
    ensures Views(sessions, rows)[sid].Root?
    ensures Views(Registered(sessions, sid, gvr, p), rows) == WithToken(Views(sessions, rows), sid, gvr, rows[p])
  {
    var after := Registered(sessions, sid, gvr, p);
    assert RecordView(after[sid], rows).rows == RecordView(sessions[sid], rows).rows[gvr := rows[p]];
  }

  lemma SerialTaken(rows: seq<Row>, nextSerial: nat, r: Row)
    requires SerialsName(rows, nextSerial) && r.serial == nextSerial + 1
    ensures SerialsName(rows + [r], nextSerial + 1)
  {
    var pool := rows + [r];
    assert forall a | 0 <= a < |rows| :: pool[a] == rows[a];
  }

  /** The number of keys outside a set that was already counted. */
  method CountOutside(keys: set<string>, known: set<string>) returns (n: nat)
    ensures n == |keys - known|
  {
    n := 0;
    ghost var counted: set<string> := {};
    var todo := keys;
    while todo != {}
      invariant n == |counted| && todo <= keys
      invariant forall c :: c in counted <==> c in keys && c !in todo && c !in known
      decreases todo
    {
      var c :| c in todo;
      if c !in known { n, counted := n + 1, counted + {c}; }
      todo := todo - {c};
    }
    assert counted == keys - known;
  }

  lemma UnionCount(a: set<string>, b: set<string>, c: set<string>)
    ensures |a + b + c| == |a| + |b - a| + |c - (a + b)|
  {
    assert a + b == a + (b - a);
    assert a + b + c == (a + b) + (c - (a + b));
  }

  /** RecordDiscovery reports a scope error for what a source may not record; an inactive handle is no error. */
  predicate DiscoveryRefused(s: State, sid: nat, found: DiscoveryState, checked: Time) {
    && sid < |s.sessions|
    && (|| s.sessions[sid].Child? || s.sessions[sid].source != Gatekeeper
        || found == ApiInvalid || (found == ApiUnknown) != (checked == 0))
  }

  /** A data gap is noted once: its first time stays. */
  method NoteGap(was: Row, reason: Reason, now: Time) returns (row: Row)
    ensures row == Touched(was, Change.RecordGap(reason, now))
  {
    row := was;
    match reason {
      case ExtractionFailed =>
        if row.extractionGap == 0 { row := row.(revision := row.revision + 1, extractionGap := now); }
      case PersistenceFailed =>
        if row.persistenceGap == 0 { row := row.(revision := row.revision + 1, persistenceGap := now); }
      case _ =>
        if row.processingGap == 0 { row := row.(revision := row.revision + 1, processingGap := now); }
    }
  }

  /** A callback keeps the type and the serial of the row it writes, and the invariant. */
  lemma TouchedRow(s: State, sid: nat, gvr: Gvr, change: Change)
    requires Inv(s) && Writable(s, sid, gvr)
    ensures var r := s.sessions[Owner(s, sid)].rows[gvr];
            && Touched(r, change).gvr == gvr && Touched(r, change).serial == r.serial
            && Inv(WithRow(s, Owner(s, sid), gvr, Touched(r, change)))
  {
    assert SessionOk(s, Owner(s, sid));
    TouchedOk(s.sessions[Owner(s, sid)].rows[gvr], change);
    UpdateKeepsInv(s, sid, gvr, change);
  }

  class CoverageTracker {
    const staleAfter: int
    var clusters: map<string, nat>
    var sources: map<string, map<Source, nat>>
    var inventories: map<string, nat>
    var nextGeneration: nat
    var nextSerial: nat
    var sessions: seq<Record>
    var rows: seq<Row>
    ghost var homes: seq<nat>

    /** The tracker as the state machine sees it. */
    ghost function View(): State
      requires AllStored(sessions, rows)
      reads this
    {
      State(clusters, sources, inventories, Views(sessions, rows), nextGeneration, nextSerial)
    }

    ghost predicate Valid()
      reads this
    {
      Owned(sessions, rows, homes) && SerialsName(rows, nextSerial) && Inv(View())
    }

    constructor (staleAfter: int)
      ensures Valid() && View() == Initial
      ensures this.staleAfter == if staleAfter <= 0 then DEFAULT_STALE_AFTER else staleAfter
    {
      this.staleAfter := if staleAfter <= 0 then DEFAULT_STALE_AFTER else staleAfter;
      clusters, sources, inventories := map[], map[], map[];
      nextGeneration, nextSerial := 0, 0;
      sessions, rows, homes := [], [], [];
      new;
      InitialInv();
    }

    // -------------------------------------------------------------------------------
    // Ownership

    function SessionLocked(cluster: string, source: Source): Option<nat>
      reads this
    {
      if source == Core then
        if cluster in clusters then Some(clusters[cluster]) else None
      else if cluster in sources && source in sources[cluster] then
        Some(sources[cluster][source])
      else
        None
    }

    /** A record and its view agree on parenthood. */
    lemma ViewOf(sid: nat)
      requires Valid() && sid < |sessions|
      ensures View().sessions[sid] == RecordView(sessions[sid], rows) && ParentOk(View().sessions, sid)
      ensures RecordOwns(sessions[sid], sid, rows, homes)
      ensures sessions[sid].TokenRecord? ==>
                && sessions[sid].parent < |sessions| && sessions[sessions[sid].parent].RootRecord?
                && View().sessions[sessions[sid].parent] == RecordView(sessions[sessions[sid].parent], rows)
                && sessions[sid].gvr in sessions[sessions[sid].parent].resources
    {
      assert SessionOk(View(), sid);
    }

    method OwnerLocked(sid: nat) returns (k: nat)
      requires Valid() && sid < |sessions|
      ensures k == Owner(View(), sid) && sessions[k].RootRecord?
    {
      ViewOf(sid);
      match sessions[sid]
      case RootRecord(_, _, _, _, _, _, _) => k := sid;
      case TokenRecord(parent, _, _, _) => k := parent;
    }

    /** activeLocked */
    method ActiveLocked(sid: nat) returns (active: bool)
      requires Valid()
      ensures active == Active(View(), sid)
    {
      if sid >= |sessions| { return false; } // a nil handle
      var owner := OwnerLocked(sid);
      ViewOf(sid);
      ViewOf(owner);
      var slot := SessionLocked(sessions[owner].cluster, sessions[owner].source);
      return !sessions[sid].stopped && !sessions[owner].stopped && slot == Some(owner);
    }

    /** The row a handle may write: live, and still the parent's row (ownsTypeLocked). */
    method Locate(sid: nat, gvr: Gvr) returns (found: Option<nat>)
      requires Valid()
      ensures found.Some? <==> Writable(View(), sid, gvr)
      ensures found.Some? ==> sid < |sessions| && Holds(Owner(View(), sid), gvr, found.value)
    {
      var active := ActiveLocked(sid);
      if !active { return None; }
      var owner := OwnerLocked(sid);
      ViewOf(sid);
      ViewOf(owner);
      match sessions[sid]
      case RootRecord(_, _, _, resources, _, _, _) =>
        if gvr in resources && !rows[resources[gvr]].stopped { return Some(resources[gvr]); }
        return None;
      case TokenRecord(parent, own, row, _) =>
        if own == gvr && !rows[row].stopped && gvr in sessions[parent].resources
            && sessions[parent].resources[gvr] == row {
          return Some(row);
        }
        return None;
    }

    /** Root `k` files row `p` under `g`. */
    ghost predicate Holds(k: nat, g: Gvr, p: nat)
      reads this
    {
      && k < |sessions| && sessions[k].RootRecord?
      && g in sessions[k].resources && sessions[k].resources[g] == p && p < |rows|
    }

    method StoreRow(p: nat, ghost k: nat, row: Row)
      requires Valid() && Holds(k, row.gvr, p)
      requires row.serial == rows[p].serial && View().sessions[k].Root? && Inv(WithRow(View(), k, row.gvr, row))
      modifies this`rows
      ensures Valid() && rows == old(rows)[p := row]
      ensures old(View()).sessions[k].Root? && View() == WithRow(old(View()), k, row.gvr, row)
    {
      WriteVisibleAtHome(sessions, rows, homes, p, row, k);
      WriteKeepsSerials(rows, nextSerial, p, row);
      rows := rows[p := row];
    }

    // -------------------------------------------------------------------------------
    // Collector callbacks

    /** The common tail of every callback: `row` is what the callback made of the row it may write. */
    ghost predicate Admits(sid: nat, gvr: Gvr, p: nat, change: Change)
      reads this
    {
      && Valid() && Writable(View(), sid, gvr) && Holds(Owner(View(), sid), gvr, p)
      && View().sessions[Owner(View(), sid)].rows[gvr] == rows[p]
      && Touched(rows[p], change).gvr == gvr && Touched(rows[p], change).serial == rows[p].serial
      && Inv(WithRow(View(), Owner(View(), sid), gvr, Touched(rows[p], change)))
    }

    lemma CallbackAdmitted(sid: nat, gvr: Gvr, p: nat, change: Change)
      requires Valid() && Writable(View(), sid, gvr) && Holds(Owner(View(), sid), gvr, p)
      ensures Admits(sid, gvr, p, change)
    {
      ViewOf(Owner(View(), sid));
      TouchedRow(View(), sid, gvr, change);
    }

    method Commit(sid: nat, gvr: Gvr, p: nat, row: Row, ghost change: Change)
      requires Admits(sid, gvr, p, change) && row == Touched(rows[p], change)
      modifies this`rows
      ensures Valid() && View() == Apply(old(View()), Update(sid, gvr, change))
    {
      StoreRow(p, Owner(View(), sid), row);
    }

    method InitialDeliveryComplete(sid: nat, gvr: Gvr)
      requires Valid()
      modifies this`rows
      ensures Valid() && View() == Apply(old(View()), Update(sid, gvr, InitialDelivery))
    {
      var found := Locate(sid, gvr);
      if found.None? { return; }
      var p := found.value;
      CallbackAdmitted(sid, gvr, p, InitialDelivery);
      var row := rows[p];
      if !row.initialDone {
        row := row.(revision := row.revision + 1, initialDone := true);
      }
      Commit(sid, gvr, p, row, InitialDelivery);
    }

    method ListResult(sid: nat, gvr: Gvr, success: bool, denied: bool, now: Time)
      requires Valid()
      modifies this`rows
      ensures Valid() && View() == Apply(old(View()), Update(sid, gvr, Change.ListResult(success, denied, now)))
    {
      var found := Locate(sid, gvr);
      if found.None? { return; }
      var p := found.value;
      CallbackAdmitted(sid, gvr, p, Change.ListResult(success, denied, now));
      var row := rows[p].(revision := rows[p].revision + 1);
      if success {
        row := row.(lastList := now, listReason := NoReason);
      } else if denied {
        row := row.(listReason := ListDenied);
      } else {
        row := row.(listReason := ListFailed);
      }
      Commit(sid, gvr, p, row, Change.ListResult(success, denied, now));
    }

    /** Returns the epoch of the new stream, or 0 when the call was late. */
    method WatchStarted(sid: nat, gvr: Gvr) returns (epoch: nat)
      requires Valid()
      modifies this`rows
      ensures Valid() && View() == Apply(old(View()), Update(sid, gvr, Change.WatchStarted))
      ensures epoch != 0 <==> Writable(old(View()), sid, gvr)
      ensures epoch != 0 ==> epoch == old(View()).sessions[Owner(old(View()), sid)].rows[gvr].epoch + 1
    {
      epoch := 0;
      var found := Locate(sid, gvr);
      if found.None? { return; }
      var p := found.value;
      CallbackAdmitted(sid, gvr, p, Change.WatchStarted);
      var row := rows[p].(revision := rows[p].revision + 1, epoch := rows[p].epoch + 1);
      epoch := row.epoch;
      row := row.(established := true, watchReason := NoReason, watchGap := 0);
      Commit(sid, gvr, p, row, Change.WatchStarted);
    }

    method WatchEnded(sid: nat, gvr: Gvr, epoch: nat, reason: Reason, now: Time)
      requires Valid()
      modifies this`rows
      ensures Valid() && View() == Apply(old(View()), Update(sid, gvr, Change.WatchEnded(epoch, reason, now)))
    {
      var found := Locate(sid, gvr);
      if found.None? { return; }
      var p := found.value;
      CallbackAdmitted(sid, gvr, p, Change.WatchEnded(epoch, reason, now));
      var row := EndWatch(rows[p], epoch, reason, now);
      Commit(sid, gvr, p, row, Change.WatchEnded(epoch, reason, now));
    }

    static method EndWatch(r: Row, epoch: nat, reason: Reason, now: Time) returns (row: Row)
      ensures row == Touched(r, Change.WatchEnded(epoch, reason, now))
    {
      var why := reason;
      if reason != WatchClosed && reason != WatchDenied && reason != WatchFailed { why := WatchFailed; }
      row := r;
      if epoch != 0 && row.epoch != epoch { return; }
      row := row.(revision := row.revision + 1, established := false);
      if row.watchGap == 0 { row := row.(watchGap := now); }
      // A stream's final close must not erase the preceding error.
      if why != WatchClosed || row.watchReason == NoReason || row.watchReason == WatchPending {
        row := row.(watchReason := why);
      }
    }

    method RecordGap(sid: nat, gvr: Gvr, reason: Reason, now: Time)
      requires Valid()
      modifies this`rows
      ensures Valid() && View() == Apply(old(View()), Update(sid, gvr, Change.RecordGap(reason, now)))
    {
      var found := Locate(sid, gvr);
      if found.None? { return; }
      var p := found.value;
      CallbackAdmitted(sid, gvr, p, Change.RecordGap(reason, now));
      var row := NoteGap(rows[p], reason, now);
      Commit(sid, gvr, p, row, Change.RecordGap(reason, now));
    }

    // -------------------------------------------------------------------------------
    // Opening sessions

    predicate HasClusterLocked(cluster: string)
      reads this
    {
      cluster in clusters || cluster in sources || cluster in inventories
    }

    method ClusterCountLocked() returns (n: nat)
      requires AllStored(sessions, rows)
      ensures n == |KnownClusters(View())|
    {
      var fromSources := CountOutside(sources.Keys, clusters.Keys);
      var fromInventories := CountOutside(inventories.Keys, clusters.Keys + sources.Keys);
      UnionCount(clusters.Keys, sources.Keys, inventories.Keys);
      assert |clusters| == |clusters.Keys|;
      n := |clusters| + fromSources + fromInventories;
    }

    method Room(cluster: string) returns (ok: bool)
      requires AllStored(sessions, rows)
      ensures ok == HasRoom(View(), cluster)
    {
      if HasClusterLocked(cluster) { return true; }
      var n := ClusterCountLocked();
      return n < MAX_CLUSTERS;
    }

    /** begin: a new root for the slot, or None for an invalid or excessive scope. */
    method BeginLocked(cluster: string, source: Source, gvrs: seq<Gvr>, now: Time) returns (s: Option<nat>)
      requires Valid()
      modifies this
      ensures Valid()
      ensures s == if BeginAccepted(old(View()), cluster, source, gvrs, now) then Some(|old(sessions)|) else None
      ensures View() == if s.Some? then Begun(old(View()), cluster, source, gvrs, now) else old(View())
    {
      if !ValidScope(cluster, gvrs) || now == 0 { return None; }
      var room := Room(cluster);
      if !room { return None; }
      var resources, pool, limited := Prepare(cluster, source, gvrs, now);
      SameSize(resources, BegunRows(PreviousRows(View(), cluster, source), gvrs, now));
      if |resources| > MAX_TYPES { return None; }
      BegunKeepsInv(View(), cluster, source, gvrs, now);
      BegunRowsKeyed(View(), cluster, source, gvrs, now);
      Install(cluster, source, gvrs, now, resources, pool, limited);
      return Some(|sessions| - 1);
    }

    method Prepare(cluster: string, source: Source, gvrs: seq<Gvr>, now: Time)
      returns (resources: map<Gvr, nat>, pool: seq<Row>, limited: bool)
      requires Valid()
      ensures limited == (Current(View(), cluster, source).Some?
                && View().sessions[Current(View(), cluster, source).value].limited)
      ensures Allocated(resources, rows, pool, BegunRows(PreviousRows(View(), cluster, source), gvrs, now))
    {
      var previous := SessionLocked(cluster, source);
      assert Current(View(), cluster, source) == previous;
      var inherited := map[];
      limited := false;
      if previous.Some? {
        ViewOf(previous.value);
        inherited, limited := sessions[previous.value].resources, sessions[previous.value].limited;
      }
      assert forall g | g in inherited :: inherited[g] < |rows|;
      assert PreviousRows(View(), cluster, source) == (map g | g in inherited :: rows[inherited[g]]);
      resources, pool := BuildRows(inherited, rows, gvrs, now);
    }

    method Install(cluster: string, source: Source, ghost gvrs: seq<Gvr>, ghost now: Time,
                   resources: map<Gvr, nat>, pool: seq<Row>, limited: bool)
      requires Owned(sessions, rows, homes) && SerialsName(rows, nextSerial) && Linked(View())
      requires limited == (Current(View(), cluster, source).Some?
                 && View().sessions[Current(View(), cluster, source).value].limited)
      requires Allocated(resources, rows, pool, BegunRows(PreviousRows(View(), cluster, source), gvrs, now))
      requires forall g | g in resources :: BegunRows(PreviousRows(View(), cluster, source), gvrs, now)[g].gvr == g
      modifies this
      ensures Owned(sessions, rows, homes) && SerialsName(rows, nextSerial) && |sessions| == |old(sessions)| + 1
      ensures View() == Begun(old(View()), cluster, source, gvrs, now)
    {
      var id := |sessions|;
      AddRoot(RootRecord(nextGeneration + 1, cluster, source, resources, limited, None, false), pool,
              BegunRows(PreviousRows(View(), cluster, source), gvrs, now));
      nextGeneration := nextGeneration + 1;
      if source == Core {
        clusters := clusters[cluster := id];
      } else {
        var slots := if cluster in sources then sources[cluster] else map[];
        sources := sources[cluster := slots[source := id]];
      }
    }

    method AddRoot(record: Record, pool: seq<Row>, ghost wanted: map<Gvr, Row>)
      requires Owned(sessions, rows, homes) && SerialsName(rows, nextSerial) && record.RootRecord?
      requires Allocated(record.resources, rows, pool, wanted) && forall g | g in wanted :: wanted[g].gvr == g
      modifies this`sessions, this`rows, this`homes
      ensures Owned(sessions, rows, homes) && SerialsName(rows, nextSerial) && |sessions| == |old(sessions)| + 1
      ensures View() == old(View()).(sessions := old(View()).sessions
              + [Root(record.generation, record.cluster, record.source, wanted, record.limited, record.discovery,
                  record.stopped)])
    {
      ghost var id := |sessions|;
      ghost var homed := homes + seq(|pool| - |rows|, _ => id);
      GrowKeepsOwnership(sessions, rows, homes, pool, homed);
      GrowKeepsSerials(rows, pool, nextSerial);
      RecordAdded(sessions, rows, homed, pool, record, wanted);
      rows, homes, sessions := pool, homed, sessions + [record];
    }

    method Begin(cluster: string, gvrs: seq<Gvr>, now: Time) returns (s: Option<nat>)
      requires Valid()
      modifies this
      ensures Valid() && View() == Apply(old(View()), Op.Begin(cluster, gvrs, now))
      ensures s.Some? <==> BeginAccepted(old(View()), cluster, Core, gvrs, now)
      ensures s.Some? ==> s.value == |old(sessions)|
    {
      s := BeginLocked(cluster, Core, gvrs, now);
    }

    method BeginSource(cluster: string, source: Source, now: Time) returns (s: Option<nat>)
      requires Valid()
      modifies this
      ensures Valid() && View() == Apply(old(View()), Op.BeginSource(cluster, source, now))
      ensures s.Some? <==> source in {Crd, Gatekeeper} && BeginAccepted(old(View()), cluster, source, [], now)
      ensures s.Some? ==> s.value == |old(sessions)|
    {
      if source != Crd && source != Gatekeeper { return None; }
      s := BeginLocked(cluster, source, [], now);
    }

    method BeginApiInventory(cluster: string) returns (generation: Option<nat>)
      requires Valid()
      modifies this`nextGeneration, this`inventories
      ensures Valid() && View() == Apply(old(View()), Op.BeginInventory(cluster))
      ensures generation.Some? <==> ValidScope(cluster, []) && HasRoom(old(View()), cluster)
      ensures generation.Some? ==> generation.value == old(nextGeneration) + 1
    {
      if !ValidScope(cluster, []) { return None; }
      var room := Room(cluster);
      if !room { return None; }
      TakeInventory(cluster);
      return Some(nextGeneration);
    }

    method TakeInventory(cluster: string)
      requires Valid() && HasRoom(View(), cluster)
      modifies this`nextGeneration, this`inventories
      ensures Valid() && View() == InventoryBegun(old(View()), cluster) && nextGeneration == old(nextGeneration) + 1
    {
      InventoryKeepsInv(View(), cluster);
      FileInventory(cluster);
    }

    method FileInventory(cluster: string)
      requires AllStored(sessions, rows)
      modifies this`nextGeneration, this`inventories
      ensures View() == InventoryBegun(old(View()), cluster) && nextGeneration == old(nextGeneration) + 1
    {
      nextGeneration := nextGeneration + 1;
      inventories := inventories[cluster := nextGeneration];
    }

    /** BeginType: a token for one registration of one type. */
    method BeginType(sid: nat, gvr: Gvr, now: Time) returns (token: Option<nat>)
      requires Valid()
      modifies this
      ensures Valid() && View() == Apply(old(View()), Op.BeginType(sid, gvr, now))
      ensures token.Some? <==> TypeAccepted(old(View()), sid, gvr, now)
      ensures token.Some? ==> token.value == |old(sessions)|
    {
      var ok := TypeScope(sid, gvr, now);
      if !ok { return None; }
      var full := TypesExhausted(sid, gvr);
      if full {
        ViewOf(sid);
        SetRoot(sid, sessions[sid].(limited := true));
        return None;
      }
      Register(sid, gvr, now);
      return Some(|sessions| - 1);
    }

    method TypesExhausted(sid: nat, gvr: Gvr) returns (full: bool)
      requires Valid() && sid < |sessions| && View().sessions[sid].Root?
      ensures full == (gvr !in View().sessions[sid].rows && |View().sessions[sid].rows| >= MAX_TYPES)
    {
      ViewOf(sid);
      assert View().sessions[sid].rows.Keys == sessions[sid].resources.Keys;
      SameSize(View().sessions[sid].rows, sessions[sid].resources);
      full := gvr !in sessions[sid].resources && |sessions[sid].resources| >= MAX_TYPES;
    }

    method Register(sid: nat, gvr: Gvr, now: Time)
      requires Valid() && TypeAccepted(View(), sid, gvr, now)
      modifies this
      ensures Valid() && View() == TypeBegun(old(View()), sid, gvr, now) && |sessions| == |old(sessions)| + 1
    {
      TypeBegunKeepsInv(View(), sid, gvr, now);
      FileType(sid, gvr, now);
    }

    method FileType(sid: nat, gvr: Gvr, now: Time)
      requires Owned(sessions, rows, homes) && SerialsName(rows, nextSerial) && Linked(View())
      requires TypeAccepted(View(), sid, gvr, now)
      modifies this
      ensures Owned(sessions, rows, homes) && SerialsName(rows, nextSerial) && |sessions| == |old(sessions)| + 1
      ensures View() == TypeBegun(old(View()), sid, gvr, now)
    {
      RegisteredSessions(View(), sid, gvr, now);
      var r := Registration(sid, gvr, now);
      AddToken(sid, gvr, r);
    }

    /** The row of a new registration: revision continued, known data gaps kept. */
    method Registration(sid: nat, gvr: Gvr, now: Time) returns (r: Row)
      requires AllStored(sessions, rows) && sid < |sessions| && sessions[sid].RootRecord?
      ensures View().sessions[sid].Root? && r == RegistrationRow(View().sessions[sid].rows, gvr, nextSerial + 1, now)
    {
      assert Stored(sessions[sid], rows);
      r := Fresh(gvr, None, nextSerial + 1, 1, now);
      if gvr in sessions[sid].resources {
        var was := rows[sessions[sid].resources[gvr]];
        r := r.(revision := was.revision + 1, processingGap := was.processingGap,
                extractionGap := was.extractionGap, persistenceGap := was.persistenceGap);
      }
    }

    method TypeScope(sid: nat, gvr: Gvr, now: Time) returns (ok: bool)
      requires Valid()
      ensures ok == TypeScopeOk(View(), sid, gvr, now)
    {
      if sid >= |sessions| { return false; }
      ViewOf(sid);
      if !sessions[sid].RootRecord? || sessions[sid].source == Core || now == 0 { return false; }
      if !ValidScope(sessions[sid].cluster, [gvr]) || (gvr.group == "" && gvr.resource == "secrets") { return false; }
      var active := ActiveLocked(sid);
      return active && (gvr in sessions[sid].resources ==> rows[sessions[sid].resources[gvr]].stopped);
    }

    /** Changes fields of a root that no row or slot depends on. */
    method SetRoot(sid: nat, x: Record)
      requires Valid() && sid < |sessions| && sessions[sid].RootRecord? && x.RootRecord?
                 && x.resources == sessions[sid].resources
      requires x.generation == sessions[sid].generation && x.cluster == sessions[sid].cluster
      requires x.source == sessions[sid].source && x.stopped == sessions[sid].stopped
      modifies this`sessions
      ensures Valid() && old(View()).sessions[sid].Root?
      ensures View() == Replaced(old(View()), sid,
                old(View()).sessions[sid].(limited := x.limited, discovery := x.discovery))
    {
      ghost var before := View();
      ViewOf(sid);
      assert SessionOk(before, sid);
      ghost var y := before.sessions[sid].(limited := x.limited, discovery := x.discovery);
      RowsKeepInv(before, sid, y);
      sessions := sessions[sid := x];
      assert Views(sessions, rows) == before.sessions[sid := y];
    }

    method AddToken(sid: nat, gvr: Gvr, r: Row)
      requires Owned(sessions, rows, homes) && SerialsName(rows, nextSerial)
      requires sid < |sessions| && sessions[sid].RootRecord? && r.gvr == gvr && r.serial == nextSerial + 1
      modifies this`sessions, this`rows, this`homes, this`nextSerial
      ensures Owned(sessions, rows, homes) && SerialsName(rows, nextSerial) && |sessions| == |old(sessions)| + 1
      ensures old(View()).sessions[sid].Root?
      ensures View() == old(View()).(sessions := WithToken(old(View()).sessions, sid, gvr, r), nextSerial := r.serial)
    {
      var p := |rows|;
      ghost var pool, homed := rows + [r], homes + [sid];
      GrowKeepsOwnership(sessions, rows, homes, pool, homed);
      TokenOwned(sessions, pool, homed, sid, gvr, p);
      TokenViews(sessions, pool, sid, gvr, p);
      SerialTaken(rows, nextSerial, r);
      sessions := Registered(sessions, sid, gvr, p);
      rows, homes, nextSerial := rows + [r], homed, nextSerial + 1;
    }

    /** RecordDiscovery: `refused` is the scope error. A late call is no error, and changes nothing. */
    method RecordDiscovery(sid: nat, found: DiscoveryState, checked: Time) returns (refused: bool)
      requires Valid()
      modifies this`sessions
      ensures Valid() && View() == Apply(old(View()), Op.RecordDiscovery(sid, found, checked))
      ensures refused <==> DiscoveryRefused(old(View()), sid, found, checked)
    {
      ghost var before := View();
      ghost var after := Apply(before, Op.RecordDiscovery(sid, found, checked));
      var ok;
      refused, ok := DiscoveryScope(sid, found, checked);
      assert after == if ok then DiscoveryRecorded(before, sid, found, checked) else before;
      if ok { StoreDiscovery(sid, found, checked); }
      assert View() == after;
    }

    method DiscoveryScope(sid: nat, found: DiscoveryState, checked: Time) returns (refused: bool, ok: bool)
      requires Valid()
      ensures refused == DiscoveryRefused(View(), sid, found, checked)
      ensures ok == DiscoveryAccepted(View(), sid, found, checked)
      ensures ok ==> sessions[sid].RootRecord?
    {
      if sid >= |sessions| { return false, false; }
      ViewOf(sid);
      if !sessions[sid].RootRecord? || sessions[sid].source != Gatekeeper { return true, false; }
      if found == ApiInvalid || (found == ApiUnknown) != (checked == 0) { return true, false; }
      refused := false;
      ok := ActiveLocked(sid);
    }

    method StoreDiscovery(sid: nat, found: DiscoveryState, checked: Time)
      requires Valid() && sid < |sessions| && sessions[sid].RootRecord? && View().sessions[sid].Root?
      modifies this`sessions
      ensures Valid() && View() == Replaced(old(View()), sid, WithDiscovery(old(View()).sessions[sid], found, checked))
    {
      ghost var before := View();
      ViewOf(sid);
      var revision := 1;
      if sessions[sid].discovery.Some? { revision := sessions[sid].discovery.value.revision + 1; }
      SetRoot(sid, sessions[sid].(discovery := Some(Discovery(found, checked, revision))));
    }

    // -------------------------------------------------------------------------------
    // Stopping

    /** Stop: every row the handle still owns is stopped, then the handle itself. The model sets the
        handle's flag first; nobody can look in between, because the lock is held throughout. */
    method Stop(sid: nat, now: Time)
      requires Valid()
      modifies this`rows, this`sessions
      ensures Valid() && View() == Apply(old(View()), Op.Stop(sid, now))
    {
      var active := ActiveLocked(sid);
      if !active { return; }
      ViewOf(sid);
      match sessions[sid]
      case RootRecord(_, _, _, _, _, _, _) => StopRoot(sid, now);
      case TokenRecord(_, _, _, _) => StopToken(sid, now);
    }

    method StopRoot(sid: nat, now: Time)
      requires Valid() && Active(View(), sid) && sessions[sid].RootRecord?
      modifies this`rows, this`sessions
      ensures Valid() && View() == StopApplied(old(View()), sid, now)
    {
      ViewOf(sid);
      RootStopInTwoSteps(View(), sid, now);
      MarkRootStopped(sid);
      StopOwnRows(sid, now);
    }

    method StopOwnRows(sid: nat, now: Time)
      requires Valid() && sid < |sessions| && View().sessions[sid].Root? && View().sessions[sid].stopped
      modifies this`rows
      ensures Valid()
      ensures View() == Replaced(old(View()), sid,
                StoppedRoot(old(View()).sessions[sid], StoppedRows(old(View()).sessions[sid].rows, now)))
    {
      ghost var before := View();
      ViewOf(sid);
      WalkEnds(before, sid, now);
      var todo := sessions[sid].resources.Keys;
      ghost var done: set<Gvr> := {};
      while todo != {}
        invariant Valid() && View() == Walked(before, sid, done, now)
        invariant forall g | g in todo :: g in before.sessions[sid].rows && g !in done
        invariant forall g | g in before.sessions[sid].rows :: g in todo || g in done
        invariant done <= before.sessions[sid].rows.Keys
        decreases todo
      {
        var g :| g in todo;
        WalkStep(before, sid, done, g, now);
        StopOwnRow(sid, g, now);
        todo, done := todo - {g}, done + {g};
      }
      assert done == before.sessions[sid].rows.Keys;
    }

    method MarkRootStopped(sid: nat)
      requires Valid() && sid < |sessions| && sessions[sid].RootRecord? && View().sessions[sid].Root?
      modifies this`sessions
      ensures Valid() && sid < |sessions| && sessions[sid].RootRecord?
                && sessions[sid].resources == old(sessions[sid].resources)
      ensures View() == Replaced(old(View()), sid,
                StoppedRoot(old(View()).sessions[sid], old(View()).sessions[sid].rows))
    {
      ghost var before := View();
      ViewOf(sid);
      RootFlagKeepsInv(before, sid);
      var x := sessions[sid];
      sessions := sessions[sid := x.(resources := x.resources, stopped := true)];
      assert Views(sessions, rows)
             == before.sessions[sid := StoppedRoot(before.sessions[sid], before.sessions[sid].rows)];
    }

    method StopOwnRow(sid: nat, g: Gvr, now: Time)
      requires Valid() && sid < |sessions| && View().sessions[sid].Root? && View().sessions[sid].stopped
      requires g in View().sessions[sid].rows
      modifies this`rows
      ensures Valid()
      ensures View() == if old(View()).sessions[sid].rows[g].stopped then old(View())
                        else WithRow(old(View()), sid, g, Stopped(old(View()).sessions[sid].rows[g], now))
    {
      ViewOf(sid);
      var p := sessions[sid].resources[g];
      if !rows[p].stopped {
        StoppedRowKeepsInv(View(), sid, g, now);
        StoreRow(p, sid, Stopped(rows[p], now));
      }
    }

    method StopToken(sid: nat, now: Time)
      requires Valid() && Active(View(), sid) && sessions[sid].TokenRecord?
      modifies this`rows, this`sessions
      ensures Valid() && View() == StopApplied(old(View()), sid, now)
    {
      ghost var before := View();
      ghost var x := before.sessions[sid];
      ViewOf(sid);
      ViewOf(sessions[sid].parent);
      ChildStopKeepsInv(before, sid, now);
      TokenFlagKeepsInv(before, sid);
      var own := sessions[sid].gvr;
      var found := Locate(sid, own);
      SetStopped(sid);
      if found.Some? {
        var p := found.value;
        StoreRow(p, sessions[sid].parent, Stopped(rows[p], now));
      }
    }

    method SetStopped(sid: nat)
      requires Valid() && sid < |sessions| && sessions[sid].TokenRecord?
      requires View().sessions[sid] == Child(sessions[sid].parent, sessions[sid].gvr, rows[sessions[sid].row].serial,
                 sessions[sid].stopped)
      requires Inv(Replaced(View(), sid,
                            Child(sessions[sid].parent, sessions[sid].gvr, rows[sessions[sid].row].serial, true)))
      modifies this`sessions
      ensures Valid() && sessions == old(sessions)[sid := old(sessions[sid]).(stopped := true)]
      ensures old(View()).sessions[sid].Child?
      ensures View() == Replaced(old(View()), sid,
                Child(old(sessions[sid]).parent, old(sessions[sid]).gvr, old(View()).sessions[sid].serial, true))
    {
      ghost var before := View();
      var x := sessions[sid];
      sessions := sessions[sid := TokenRecord(x.parent, x.gvr, x.row, true)];
      assert Views(sessions, rows) == before.sessions[sid := Child(x.parent, x.gvr, rows[x.row].serial, true)];
    }
  }

  lemma RootStopInTwoSteps(s: State, sid: nat, now: Time)
    requires Linked(s) && Active(s, sid) && s.sessions[sid].Root?
    ensures var t := Replaced(s, sid, StoppedRoot(s.sessions[sid], s.sessions[sid].rows));
            Replaced(t, sid, StoppedRoot(t.sessions[sid], StoppedRows(t.sessions[sid].rows, now)))
                == StopApplied(s, sid, now)
  {
  }

  lemma TokenFlagKeepsInv(s: State, sid: nat)
    requires Inv(s) && sid < |s.sessions| && s.sessions[sid].Child?
    ensures Inv(Replaced(s, sid, Child(s.sessions[sid].parent, s.sessions[sid].gvr, s.sessions[sid].serial, true)))
  {
    assert SessionOk(s, sid);
    ReplaceKeepsInv(s, sid, Child(s.sessions[sid].parent, s.sessions[sid].gvr, s.sessions[sid].serial, true));
  }

  function StoppedRoot(x: Session, rows: map<Gvr, Row>): Session
    requires x.Root?
  {
    x.(rows := rows, stopped := true)
  }

  lemma RootFlagKeepsInv(s: State, sid: nat)
    requires Inv(s) && sid < |s.sessions| && s.sessions[sid].Root?
    ensures Inv(Replaced(s, sid, StoppedRoot(s.sessions[sid], s.sessions[sid].rows)))
  {
    var x := StoppedRoot(s.sessions[sid], s.sessions[sid].rows);
    assert SessionOk(s, sid);
    forall i | 0 <= i < |s.sessions| && i != sid && s.sessions[i].Child? && s.sessions[i].parent == sid
      ensures ChildOk(x, s.sessions[i], s.nextSerial)
    {
      assert SessionOk(s, i);
    }
    ReplaceKeepsInv(s, sid, x);
  }

  lemma StoppedRowKeepsInv(s: State, sid: nat, g: Gvr, now: Time)
    requires Inv(s) && sid < |s.sessions| && s.sessions[sid].Root? && s.sessions[sid].stopped
               && g in s.sessions[sid].rows
    ensures Inv(WithRow(s, sid, g, Stopped(s.sessions[sid].rows[g], now)))
  {
    var x := s.sessions[sid];
    assert SessionOk(s, sid);
    var r := Stopped(x.rows[g], now);
    var y := x.(rows := x.rows[g := r]);
    RowsOkAfterUpdate(x.rows, g, r, SerialBound(s, x.source), SerialBound(s, x.source));
    SizeAfterUpdate(x.rows, g, r);
    forall i | 0 <= i < |s.sessions| && i != sid && s.sessions[i].Child? && s.sessions[i].parent == sid
      ensures ChildOk(y, s.sessions[i], s.nextSerial)
    {
      assert SessionOk(s, i);
    }
    ReplaceKeepsInv(s, sid, y);
  }

  /** The rows of a root while Stop walks over them. */
  ghost function PartlyStopped(rows: map<Gvr, Row>, done: set<Gvr>, now: Time): map<Gvr, Row> {
    map g | g in rows :: if g in done && !rows[g].stopped then Stopped(rows[g], now) else rows[g]
  }

  ghost function Walked(s: State, sid: nat, done: set<Gvr>, now: Time): State
    requires sid < |s.sessions| && s.sessions[sid].Root?
  {
    Replaced(s, sid, StoppedRoot(s.sessions[sid], PartlyStopped(s.sessions[sid].rows, done, now)))
  }

  lemma WalkEnds(s: State, sid: nat, now: Time)
    requires sid < |s.sessions| && s.sessions[sid].Root? && s.sessions[sid].stopped
    ensures Walked(s, sid, {}, now) == s
    ensures Walked(s, sid, s.sessions[sid].rows.Keys, now)
            == Replaced(s, sid, StoppedRoot(s.sessions[sid], StoppedRows(s.sessions[sid].rows, now)))
  {
    var rows := s.sessions[sid].rows;
    assert PartlyStopped(rows, {}, now) == rows;
    assert PartlyStopped(rows, rows.Keys, now) == StoppedRows(rows, now);
    assert s.sessions[sid := s.sessions[sid]] == s.sessions;
  }

  lemma WalkStep(s: State, sid: nat, done: set<Gvr>, g: Gvr, now: Time)
    requires sid < |s.sessions| && s.sessions[sid].Root? && g in s.sessions[sid].rows && g !in done
    ensures Walked(s, sid, done, now).sessions[sid].rows[g] == s.sessions[sid].rows[g]
    ensures Walked(s, sid, done + {g}, now)
            == if s.sessions[sid].rows[g].stopped then Walked(s, sid, done, now)
               else WithRow(Walked(s, sid, done, now), sid, g, Stopped(s.sessions[sid].rows[g], now))
  {
    var rows := s.sessions[sid].rows;
    assert PartlyStopped(rows, done + {g}, now)
           == if rows[g].stopped then PartlyStopped(rows, done, now)
              else PartlyStopped(rows, done, now)[g := Stopped(rows[g], now)];
  }
}
