/** Taking captures of the tracker: the loops of snapshot() and snapshotSourceLocked(),
    proved to deliver what CoverageCapture says a capture is. */
module CoverageSnapshots {
  import opened Options
  import opened Contexts
  import opened Ordering
  import opened CoverageModel
  import opened CoverageRuns
  import opened CoverageTheorems
  import opened CoverageCapture
  import opened CoverageTracker
  import CoverageHistory

  /** Ten minutes, in nanoseconds. */
  const SOURCE_DISCOVERY_MAX_AGE: int := 600_000_000_000

  /** Reasons and state of a row before its data gaps are looked at. */
  function EarlyReasons(r: Row): seq<Reason> {
    (if !r.initialDone then [InitialPending] else [])
    + (if r.listReason != NoReason then [r.listReason] else [])
    + (if r.stopped then [CollectorStopped] else if !r.established then [r.watchReason] else [])
  }

  function EarlyState(r: Row): CoverageState {
    if r.listReason != NoReason || r.stopped || (!r.established && r.watchReason != WatchPending) then Partial
    else if !r.initialDone || !r.established then Initializing
    else Observed
  }

  method CaptureLifecycle(r: Row) returns (state: CoverageState, reasons: seq<Reason>)
    ensures state == EarlyState(r) && reasons == EarlyReasons(r)
  {
    state, reasons := Observed, [];
    if !r.initialDone {
      state, reasons := Initializing, reasons + [InitialPending];
    }
    if r.listReason != NoReason {
      state, reasons := Partial, reasons + [r.listReason];
    }
    if r.stopped {
      state, reasons := Partial, reasons + [CollectorStopped];
    } else if !r.established {
      if r.watchReason != WatchPending { state := Partial; }
      reasons := reasons + [r.watchReason];
      if state == Observed { state := Initializing; }
    }
  }

  method CaptureRow(r: Row, now: Time, staleAfter: int) returns (out: RowCapture)
    ensures out == Captured(r, now, staleAfter)
  {
    var state, reasons := CaptureLifecycle(r);
    state, reasons := AddGaps(r, state, reasons);
    assert reasons == CaptureReasons(r);
    if r.watchGap != 0 && now - r.watchGap >= staleAfter { state := Stale; }
    out := RowCapture(r.gvr, r.revision, state, reasons, r.since, r.initialDone, r.established, r.lastList, r.watchGap,
                      r.processingGap, r.extractionGap, r.persistenceGap);
  }

  method AddGaps(r: Row, start: CoverageState, known: seq<Reason>) returns (state: CoverageState, reasons: seq<Reason>)
    ensures reasons == known + GapReasons(r) && state == if HasGap(r) then Partial else start
  {
    state, reasons := start, known;
    var gaps := [(r.processingGap, ProcessingFailed), (r.extractionGap, ExtractionFailed),
        (r.persistenceGap, PersistenceFailed)];
    var i := 0;
    while i < 3
      invariant 0 <= i <= 3
      invariant reasons == known + Listed(gaps[..i])
      invariant state == if Listed(gaps[..i]) == [] then start else Partial
    {
      assert gaps[..i + 1] == gaps[..i] + [gaps[i]];
      ListedAppends(gaps[..i], gaps[i]);
      if gaps[i].0 != 0 {
        state, reasons := Partial, reasons + [gaps[i].1];
      }
      i := i + 1;
    }
    assert gaps[..3] == gaps;
    ListedGaps(r);
  }

  ghost function Listed(gaps: seq<(Time, Reason)>): seq<Reason> {
    if gaps == [] then []
    else Listed(gaps[..|gaps| - 1]) + if gaps[|gaps| - 1].0 != 0 then [gaps[|gaps| - 1].1] else []
  }

  lemma ListedAppends(gaps: seq<(Time, Reason)>, last: (Time, Reason))
    ensures Listed(gaps + [last]) == Listed(gaps) + if last.0 != 0 then [last.1] else []
  {
    assert (gaps + [last])[..|gaps|] == gaps;
  }

  lemma ListedGaps(r: Row)
    ensures Listed([(r.processingGap, ProcessingFailed), (r.extractionGap, ExtractionFailed),
              (r.persistenceGap, PersistenceFailed)])
            == GapReasons(r)
  {
    var a, b, c := (r.processingGap, ProcessingFailed), (r.extractionGap, ExtractionFailed),
        (r.persistenceGap, PersistenceFailed);
    ListedAppends([], a);
    ListedAppends([a], b);
    ListedAppends([a, b], c);
    assert [] + [a] == [a] && [a] + [b] == [a, b] && [a, b] + [c] == [a, b, c];
  }

  /** The session that holds a slot: its generation, its rows and whether there is one. */
  method SlotOf(t: CoverageTracker, cluster: string, source: Source)
    returns (slot: Option<nat>, generation: nat, stored: map<Gvr, Row>)
    requires t.Valid()
    ensures slot == Current(t.View(), cluster, source)
    ensures slot.Some? ==> slot.value < |t.sessions| && t.sessions[slot.value].RootRecord?
    ensures generation == Lookup(t.View(), cluster, source, Gvr("", "", "")).generation
    ensures stored == PreviousRows(t.View(), cluster, source)
  {
    slot, generation, stored := t.SessionLocked(cluster, source), 0, map[];
    assert slot == Current(t.View(), cluster, source);
    if slot.Some? {
      t.ViewOf(slot.value);
      generation := t.sessions[slot.value].generation;
      stored := map g | g in t.sessions[slot.value].resources :: t.rows[t.sessions[slot.value].resources[g]];
    }
  }

  /** A capture: the requested types of the core slot, every dynamic source, and the generation of the API inventory. */
  datatype Outcome = Cancelled | BadScope | Taken(core: CoverageCapture.Snapshot, sources: seq<SourceSnapshot>,
                                                  inventory: Option<nat>)

  /** snapshot: an invalid scope or a zero time is an error, a context that ended leaves no capture. */
  method Snapshot(ctx: Context, t: CoverageTracker, cluster: string, required: seq<Gvr>, now: Time)
    returns (out: Outcome)
    requires t.Valid()
    modifies ctx
    ensures out == Cancelled ==> ctx.deadline.Some?
    ensures out == BadScope ==> !ValidScope(cluster, required) || now == 0
    ensures out.Taken? ==>
              && ValidScope(cluster, required) && now != 0
              && IsSnapshot(t.View(), cluster, required, now, t.staleAfter, out.core)
              && AreSources(t.View(), cluster, now, t.staleAfter, out.sources)
              && out.inventory == if cluster in t.View().inventories then Some(t.View().inventories[cluster]) else None
  {
    var ended := ctx.Err();
    if ended { return Cancelled; }
    if !ValidScope(cluster, required) || now == 0 { return BadScope; }
    var inventory := if cluster in t.inventories then Some(t.inventories[cluster]) else None;
    var sources;
    sources, ended := SnapshotSources(ctx, t, cluster, now);
    if ended { return Cancelled; }
    var core;
    core, ended := SnapshotCore(ctx, t, cluster, required, now);
    if ended { return Cancelled; }
    ended := ctx.Err();
    return if ended then Cancelled else Taken(core, sources, inventory);
  }

  method SnapshotCore(ctx: Context, t: CoverageTracker, cluster: string, required: seq<Gvr>, now: Time)
    returns (out: CoverageCapture.Snapshot, ended: bool)
    requires t.Valid() && ValidScope(cluster, required)
    modifies ctx
    ensures ended ==> ctx.deadline.Some?
    ensures !ended ==> IsSnapshot(t.View(), cluster, required, now, t.staleAfter, out)
  {
    var _, generation, stored := SlotOf(t, cluster, Core);
    PreviousRowsOk(t.View(), cluster, Core);
    CapturedInSlot(t.View(), cluster, Core, now, t.staleAfter);
    var collected;
    collected, ended := Collect(ctx, stored, required, now, t.staleAfter);
    if ended { return CoverageCapture.Snapshot(0, Unknown, []), true; }
    var resources, state := Arrange(collected, required);
    out := CoverageCapture.Snapshot(generation, state, resources);
  }

  lemma CapturedInSlot(s: State, cluster: string, source: Source, now: Time, staleAfter: int)
    requires Linked(s)
    ensures forall g :: CapturedFor(s, cluster, source, g, now, staleAfter)
                        == CapturedIn(PreviousRows(s, cluster, source), g, now, staleAfter)
  {
  }

  ghost function CapturedIn(stored: map<Gvr, Row>, g: Gvr, now: Time, staleAfter: int): RowCapture {
    if g in stored then Captured(stored[g], now, staleAfter) else Unwatched(g)
  }

  /** The captures of distinct types in key order, and the worst of their states. */
  method Arrange(collected: seq<RowCapture>, ghost required: seq<Gvr>)
    returns (resources: seq<RowCapture>, state: CoverageState)
    requires forall i | 0 <= i < |required| :: ValidGvr(required[i])
    requires forall r | r in collected :: r.gvr in required
    requires forall i, j | 0 <= i < j < |collected| :: collected[i].gvr != collected[j].gvr
    ensures StrictlySorted(RowKey, resources) && state == Overall(resources)
    ensures forall r :: r in resources <==> r in collected
  {
    resources := SortByKey(RowKey, collected);
    PermutationMembers(collected, resources);
    SortedCapturesStrict(required, collected, resources);
    state := Worst(resources);
  }

  /** One capture per requested type, in the order of first mention; the context is asked before each. */
  method Collect(ctx: Context, stored: map<Gvr, Row>, required: seq<Gvr>, now: Time, staleAfter: int)
    returns (rows: seq<RowCapture>, ended: bool)
    requires forall g | g in stored :: stored[g].gvr == g
    modifies ctx
    ensures ended ==> ctx.deadline.Some?
    ensures forall r | r in rows :: r.gvr in required && r == CapturedIn(stored, r.gvr, now, staleAfter)
    ensures !ended ==> forall g | g in required :: CapturedIn(stored, g, now, staleAfter) in rows
    ensures forall i, j | 0 <= i < j < |rows| :: rows[i].gvr != rows[j].gvr
  {
    rows, ended := [], false;
    var seen: set<Gvr> := {};
    var i := 0;
    while i < |required|
      invariant 0 <= i <= |required|
      invariant forall g | g in seen :: g in required && CapturedIn(stored, g, now, staleAfter) in rows
      invariant forall j | 0 <= j < i :: required[j] in seen
      invariant forall r | r in rows :: r.gvr in seen && r == CapturedIn(stored, r.gvr, now, staleAfter)
      invariant forall a, b | 0 <= a < b < |rows| :: rows[a].gvr != rows[b].gvr
    {
      ended := ctx.Err();
      if ended { return; }
      var g := required[i];
      if g !in seen {
        seen := seen + {g};
        var captured := Unwatched(g);
        if g in stored { captured := CaptureRow(stored[g], now, staleAfter); }
        assert forall a | 0 <= a < |rows| :: rows[a] in rows;
        rows := rows + [captured];
      }
      i := i + 1;
    }
  }

  /** Distinct valid types have distinct keys, so the sorted captures are strictly sorted. */
  lemma SortedCapturesStrict(required: seq<Gvr>, collected: seq<RowCapture>, sorted: seq<RowCapture>)
    requires forall i | 0 <= i < |required| :: ValidGvr(required[i])
    requires forall r | r in collected :: r.gvr in required
    requires forall i, j | 0 <= i < j < |collected| :: collected[i].gvr != collected[j].gvr
    requires multiset(collected) == multiset(sorted) && Sorted(RowKey, sorted)
    ensures StrictlySorted(RowKey, sorted)
  {
    forall i, j | 0 <= i < j < |collected| ensures RowKey(collected[i]) != RowKey(collected[j]) {
      assert collected[i] in collected && collected[j] in collected;
      if RowKey(collected[i]) == RowKey(collected[j]) { KeysSeparate(collected[i], collected[j]); }
    }
    PermutationKeepsDistinct(RowKey, collected, sorted);
    SortedDistinctIsStrict(RowKey, sorted);
  }

  /** The fold over the captured rows. */
  method Worst(rows: seq<RowCapture>) returns (state: CoverageState)
    ensures state == Overall(rows)
  {
    if |rows| == 0 { return Unknown; }
    state := Observed;
    var unknown := 0;
    var i := 0;
    while i < |rows|
      invariant 0 <= i <= |rows|
      invariant forall j | 0 <= j < i :: Rank(rows[j].state) <= Rank(state)
      invariant state == Observed || exists j | 0 <= j < i :: rows[j].state == state
      invariant 0 <= unknown <= i
      invariant unknown == i <==> forall j | 0 <= j < i :: rows[j].state == Unknown
    {
      if rows[i].state == Unknown { unknown := unknown + 1; }
      if Rank(rows[i].state) > Rank(state) { state := rows[i].state; }
      i := i + 1;
    }
    WorstIsOverall(rows, state);
    if state == Unknown && unknown < |rows| { state := Partial; }
  }

  lemma WorstIsOverall(rows: seq<RowCapture>, state: CoverageState)
    requires rows != []
    requires forall j | 0 <= j < |rows| :: Rank(rows[j].state) <= Rank(state)
    requires state == Observed || exists j | 0 <= j < |rows| :: rows[j].state == state
    ensures state != Unknown ==> Overall(rows) == state
    ensures state == Unknown ==>
              Overall(rows) == if forall j | 0 <= j < |rows| :: rows[j].state == Unknown then Unknown else Partial
  {
    if state != Observed {
      var j :| 0 <= j < |rows| && rows[j].state == state;
      assert rows[j] in rows;
    }
    assert rows[0] in rows;
    forall r | r in rows ensures Rank(r.state) <= Rank(state) {
    }
    if state == Unknown && !(forall j | 0 <= j < |rows| :: rows[j].state == Unknown) {
      var j :| 0 <= j < |rows| && rows[j].state != Unknown;
      assert rows[j] in rows;
    }
  }

  // ---------------------------------------------------------------------------------
  // Source captures

  datatype SourceSnapshot = SourceSnapshot(
    source: Source, generation: nat, state: CoverageState, inventoryLimited: bool, resources: seq<RowCapture>,
    discovery: Option<Discovery>, discoveryStale: bool)

  predicate DiscoveryTooOld(d: Discovery, now: Time) {
    d.checkedAt != 0 && now - d.checkedAt >= SOURCE_DISCOVERY_MAX_AGE
  }

  /** Nothing beyond the registered rows speaks against completeness. */
  predicate InventoryHolds(x: Session, now: Time)
    requires x.Root?
  {
    && !x.limited && !x.stopped
    && (x.discovery.Some? ==> x.discovery.value.state == ApiAdvertised && !DiscoveryTooOld(x.discovery.value, now))
  }

  /** What a source capture holds: every registered type, stopped ones included. */
  ghost predicate IsSourceSnapshot(x: Session, now: Time, staleAfter: int, out: SourceSnapshot)
    requires x.Root?
  {
    && out.source == x.source && out.generation == x.generation && out.inventoryLimited == x.limited
       && out.discovery == x.discovery
    && out.discoveryStale == (x.discovery.Some? && DiscoveryTooOld(x.discovery.value, now))
    && StrictlySorted(RowKey, out.resources)
    && (forall r | r in out.resources :: r.gvr in x.rows && r == Captured(x.rows[r.gvr], now, staleAfter))
    && (forall g | g in x.rows :: Captured(x.rows[g], now, staleAfter) in out.resources)
    && out.state == if Rank(Overall(out.resources)) < Rank(Partial) && !InventoryHolds(x, now) then Partial
                    else Overall(out.resources)
  }

  /** A source is observed exactly when it has types, all of them are, and its inventory holds. */
  lemma SourceObserved(x: Session, now: Time, staleAfter: int, out: SourceSnapshot)
    requires x.Root? && IsSourceSnapshot(x, now, staleAfter, out)
    ensures out.state == Observed <==>
              && x.rows != map[] && InventoryHolds(x, now)
              && forall g | g in x.rows :: Captured(x.rows[g], now, staleAfter).state == Observed
  {
    if x.rows != map[] {
      var g :| g in x.rows;
      assert Captured(x.rows[g], now, staleAfter) in out.resources;
    }
    if out.resources != [] { assert out.resources[0] in out.resources; }
    OverallObserved(out.resources);
  }

  /** The discovery result is advertised, and less than ten minutes old if it carries a time. */
  ghost predicate FreshlyAdvertised(d: Option<Discovery>, now: Time) {
    match d
    case None => true
    case Some(found) =>
      && found.state == ApiAdvertised
      && (found.checkedAt == 0 || now < found.checkedAt + 600_000_000_000)
  }

  /** Along any run a source capture shows the discovery recorded last; the source is observed exactly when it has
      types, all of them are, it was neither limited nor stopped, and that discovery is advertised and fresh. */
  lemma DiscoveryDecides(s: State, ops: seq<Op>, k: nat, now: Time, staleAfter: int, out: SourceSnapshot)
    requires Inv(s) && k < |s.sessions| && s.sessions[k].Root?
    requires k < |Run(s, ops).sessions| && Run(s, ops).sessions[k].Root?
    requires IsSourceSnapshot(Run(s, ops).sessions[k], now, staleAfter, out)
    ensures var x := Run(s, ops).sessions[k];
            var last := CoverageHistory.LastDiscovery(s, ops, k, s.sessions[k].discovery);
            && out.discovery == last
            && (out.state == Observed <==>
                  && x.rows != map[] && !x.limited && !x.stopped && FreshlyAdvertised(last, now)
                  && forall g | g in x.rows :: Captured(x.rows[g], now, staleAfter).state == Observed)
            && (last.Some? && last.value.state == ApiAdvertised ==>
                  (out.discoveryStale <==> !FreshlyAdvertised(last, now)))
  {
    CoverageHistory.LastDiscoveryIsRecorded(s, ops, k);
    SourceObserved(Run(s, ops).sessions[k], now, staleAfter, out);
  }

  ghost predicate IsSourceOf(s: State, cluster: string, now: Time, staleAfter: int, out: SourceSnapshot)
    requires Linked(s)
  {
    var k := Current(s, cluster, out.source);
    k.Some? && IsSourceSnapshot(s.sessions[k.value], now, staleAfter, out)
  }

  /** One capture for each dynamic source that has a session, custom resources before Gatekeeper. */
  ghost predicate AreSources(s: State, cluster: string, now: Time, staleAfter: int, out: seq<SourceSnapshot>)
    requires Linked(s)
  {
    && (forall i | 0 <= i < |out| :: IsSourceOf(s, cluster, now, staleAfter, out[i]))
    && SourcesOf(out)
       == (if Current(s, cluster, Crd).Some? then [Crd] else [])
          + (if Current(s, cluster, Gatekeeper).Some? then [Gatekeeper] else [])
  }

  function SourcesOf(out: seq<SourceSnapshot>): seq<Source> {
    seq(|out|, i requires 0 <= i < |out| => out[i].source)
  }

  method SnapshotSources(ctx: Context, t: CoverageTracker, cluster: string, now: Time)
    returns (out: seq<SourceSnapshot>, ended: bool)
    requires t.Valid()
    modifies ctx
    ensures ended ==> ctx.deadline.Some?
    ensures !ended ==> AreSources(t.View(), cluster, now, t.staleAfter, out)
  {
    out := [];
    var crds, policies;
    crds, ended := SnapshotSource(ctx, t, cluster, Crd, now);
    if ended { return; }
    policies, ended := SnapshotSource(ctx, t, cluster, Gatekeeper, now);
    if ended { return; }
    BothSources(t.View(), cluster, now, t.staleAfter, crds, policies);
    out := (if crds.Some? then [crds.value] else []) + (if policies.Some? then [policies.value] else []);
  }

  ghost predicate CapturesSlot(s: State, cluster: string, source: Source, now: Time, staleAfter: int,
                               out: Option<SourceSnapshot>)
    requires Linked(s)
  {
    && (out.Some? <==> Current(s, cluster, source).Some?)
    && (out.Some? ==> out.value.source == source && IsSourceOf(s, cluster, now, staleAfter, out.value))
  }

  lemma BothSources(s: State, cluster: string, now: Time, staleAfter: int,
                    crds: Option<SourceSnapshot>, policies: Option<SourceSnapshot>)
    requires Linked(s)
    requires CapturesSlot(s, cluster, Crd, now, staleAfter, crds)
    requires CapturesSlot(s, cluster, Gatekeeper, now, staleAfter, policies)
    ensures AreSources(s, cluster, now, staleAfter,
                       (if crds.Some? then [crds.value] else []) + (if policies.Some? then [policies.value] else []))
  {
  }

  /** snapshotSourceLocked for the session that holds a source's slot. */
  method SnapshotSource(ctx: Context, t: CoverageTracker, cluster: string, source: Source, now: Time)
    returns (out: Option<SourceSnapshot>, ended: bool)
    requires t.Valid()
    modifies ctx
    ensures ended ==> ctx.deadline.Some?
    ensures !ended ==> CapturesSlot(t.View(), cluster, source, now, t.staleAfter, out)
  {
    var slot, generation, stored := SlotOf(t, cluster, source);
    if slot.None? { return None, false; }
    PreviousRowsOk(t.View(), cluster, source);
    t.ViewOf(slot.value);
    var x := t.sessions[slot.value];
    out, ended := SourceCapture(ctx, Root(x.generation, x.cluster, x.source, stored, x.limited, x.discovery, x.stopped),
                                now, t.staleAfter);
  }

  method SourceCapture(ctx: Context, x: Session, now: Time, staleAfter: int)
    returns (r: Option<SourceSnapshot>, ended: bool)
    requires x.Root? && forall g | g in x.rows :: x.rows[g].gvr == g && ValidGvr(g)
    modifies ctx
    ensures ended ==> ctx.deadline.Some?
    ensures !ended <==> r.Some?
    ensures r.Some? ==> IsSourceSnapshot(x, now, staleAfter, r.value)
  {
    var types := SeqOf(x.rows.Keys);
    var collected;
    collected, ended := Collect(ctx, x.rows, types, now, staleAfter);
    if ended { return None, true; }
    var resources, state := Arrange(collected, types);
    var out := SourceState(x, now, resources, state);
    assert IsSourceSnapshot(x, now, staleAfter, out);
    r := Some(out);
  }

  /** The inventory and discovery evidence of a source, which may worsen the state of its rows. */
  method SourceState(x: Session, now: Time, resources: seq<RowCapture>, worst: CoverageState)
    returns (out: SourceSnapshot)
    requires x.Root?
    ensures out == SourceSnapshot(x.source, x.generation, out.state, x.limited, resources, x.discovery,
                                  x.discovery.Some? && DiscoveryTooOld(x.discovery.value, now))
    ensures out.state == if Rank(worst) < Rank(Partial) && !InventoryHolds(x, now) then Partial else worst
  {
    var state := worst;
    if (x.limited || x.stopped) && Rank(state) < Rank(Partial) { state := Partial; }
    var stale := false;
    if x.discovery.Some? {
      stale := DiscoveryTooOld(x.discovery.value, now);
      if (x.discovery.value.state != ApiAdvertised || stale) && Rank(state) < Rank(Partial) { state := Partial; }
    }
    out := SourceSnapshot(x.source, x.generation, state, x.limited, resources, x.discovery, stale);
  }

  /** The keys of a map in some order: Go's map iteration. */
  method SeqOf(keys: set<Gvr>) returns (s: seq<Gvr>)
    ensures forall g :: g in s <==> g in keys
  {
    s := [];
    var todo := keys;
    while todo != {}
      invariant todo <= keys && forall g :: g in s <==> g in keys && g !in todo
      decreases todo
    {
      var g :| g in todo;
      s, todo := s + [g], todo - {g};
    }
  }
}
