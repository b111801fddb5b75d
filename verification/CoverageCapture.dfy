/** What a capture of the tracker means.

    A capture is specified by what it holds (one row per requested type, in key order) and
    not by how it is collected; the theorems show that this determines it, so the order and
    repetition of the request cannot matter. */
module CoverageCapture {
  import opened Options
  import opened Ordering
  import opened CoverageModel
  import opened CoverageRuns
  import opened CoverageTheorems

  datatype CoverageState = Unknown | Initializing | Observed | Partial | Stale

  /** ResourceCoverage: the exported part of a row together with its derived state. */
  datatype RowCapture = RowCapture(
    gvr: Gvr, revision: nat, state: CoverageState, reasons: seq<Reason>, since: Time,
    initialDone: bool, established: bool, lastList: Time, watchGap: Time,
    processingGap: Time, extractionGap: Time, persistenceGap: Time)

  function Rank(s: CoverageState): nat {
    match s
    case Stale => 4
    case Partial => 3
    case Initializing => 2
    case Unknown => 1
    case Observed => 0
  }

  // ---------------------------------------------------------------------------------
  // One row

  function GapReasons(r: Row): seq<Reason> {
    (if r.processingGap != 0 then [ProcessingFailed] else [])
    + (if r.extractionGap != 0 then [ExtractionFailed] else [])
    + (if r.persistenceGap != 0 then [PersistenceFailed] else [])
  }

  function CaptureReasons(r: Row): seq<Reason> {
    (if !r.initialDone then [InitialPending] else [])
    + (if r.listReason != NoReason then [r.listReason] else [])
    + (if r.stopped then [CollectorStopped] else if !r.established then [r.watchReason] else [])
    + GapReasons(r)
  }

  ghost predicate Disconnected(r: Row, now: Time, staleAfter: int) {
    r.watchGap != 0 && now - r.watchGap >= staleAfter
  }

  /** Evidence of a loss or a failure, as opposed to a collector that is still starting. */
  ghost predicate Failing(r: Row) {
    r.listReason != NoReason || r.stopped || (!r.established && r.watchReason != WatchPending) || HasGap(r)
  }

  ghost function CaptureState(r: Row, now: Time, staleAfter: int): CoverageState {
    if Disconnected(r, now, staleAfter) then Stale
    else if Failing(r) then Partial
    else if !r.initialDone || !r.established then Initializing
    else Observed
  }

  ghost function Captured(r: Row, now: Time, staleAfter: int): RowCapture {
    RowCapture(r.gvr, r.revision, CaptureState(r, now, staleAfter), CaptureReasons(r), r.since,
               r.initialDone, r.established, r.lastList, r.watchGap,
               r.processingGap, r.extractionGap, r.persistenceGap)
  }

  function Unwatched(g: Gvr): RowCapture {
    RowCapture(g, 0, Unknown, [NotWatched], 0, false, false, 0, 0, 0, 0, 0)
  }

  /** The meaning of a captured row: no reason exactly when observed, staleness only without an
      established watch, and never an empty reason. */
  lemma CaptureMeaning(r: Row, now: Time, staleAfter: int)
    requires RowOk(r)
    ensures Captured(r, now, staleAfter).state == Observed <==> Captured(r, now, staleAfter).reasons == []
    ensures Captured(r, now, staleAfter).state == Stale ==> !Captured(r, now, staleAfter).established
    ensures Captured(r, now, staleAfter).state == Stale <==> r.watchGap != 0 && r.watchGap + staleAfter <= now
    ensures NoReason !in Captured(r, now, staleAfter).reasons
    ensures Captured(r, now, staleAfter).state != Unknown
    ensures Captured(r, now, staleAfter).state == Observed ==>
              r.initialDone && r.established && !r.stopped && r.listReason == NoReason && !HasGap(r)
  {
  }

  /** Each reason is listed exactly for its cause. */
  lemma ReasonsExactly(r: Row, x: Reason)
    ensures x in CaptureReasons(r) <==>
              || (x == InitialPending && !r.initialDone)
              || (x == r.listReason && x != NoReason)
              || (x == CollectorStopped && r.stopped)
              || (x == r.watchReason && !r.stopped && !r.established)
              || (x == ProcessingFailed && r.processingGap != 0)
              || (x == ExtractionFailed && r.extractionGap != 0)
              || (x == PersistenceFailed && r.persistenceGap != 0)
  {
    var a := if !r.initialDone then [InitialPending] else [];
    var b := if r.listReason != NoReason then [r.listReason] else [];
    var c := if r.stopped then [CollectorStopped] else if !r.established then [r.watchReason] else [];
    assert CaptureReasons(r) == a + b + c + GapReasons(r);
    assert x in CaptureReasons(r) <==> x in a || x in b || x in c || x in GapReasons(r);
  }

  // ---------------------------------------------------------------------------------
  // A capture of one cluster

  datatype Snapshot = Snapshot(generation: nat, state: CoverageState, resources: seq<RowCapture>)

  function RowKey(r: RowCapture): seq<string> {
    [r.gvr.group + "/" + r.gvr.version + "/" + r.gvr.resource]
  }

  /** The row captured for one requested type. */
  ghost function CapturedFor(s: State, cluster: string, source: Source, g: Gvr, now: Time, staleAfter: int): RowCapture
    requires Linked(s)
  {
    var stored := Lookup(s, cluster, source, g);
    if stored.row.Some? then Captured(stored.row.value, now, staleAfter) else Unwatched(g)
  }

  /** A type without a row shows nothing but that: it is unknown, not watched, and no time or flag is set. */
  lemma UnwatchedShowsNothing(s: State, cluster: string, source: Source, g: Gvr, now: Time, staleAfter: int)
    requires Linked(s) && Lookup(s, cluster, source, g).row.None?
    ensures var c := CapturedFor(s, cluster, source, g, now, staleAfter);
            && c.gvr == g && c.state == Unknown && c.reasons == [NotWatched] && !c.initialDone && !c.established
            && c.revision == 0 && c.since == c.lastList == c.watchGap == 0
            && c.processingGap == c.extractionGap == c.persistenceGap == 0
  {
  }

  /** The worst row decides, except that missing rows beside observed ones are only partial. */
  ghost function Overall(rows: seq<RowCapture>): CoverageState {
    if rows == [] then Unknown
    else if exists r | r in rows :: r.state == Stale then Stale
    else if exists r | r in rows :: r.state == Partial then Partial
    else if exists r | r in rows :: r.state == Initializing then Initializing
    else if forall r | r in rows :: r.state == Unknown then Unknown
    else if exists r | r in rows :: r.state == Unknown then Partial
    else Observed
  }

  /** What Snapshot promises about its result. */
  ghost predicate IsSnapshot(s: State, cluster: string, required: seq<Gvr>, now: Time, staleAfter: int, out: Snapshot)
    requires Linked(s)
  {
    && out.generation == Lookup(s, cluster, Core, Gvr("", "", "")).generation
    && StrictlySorted(RowKey, out.resources)
    && (forall r | r in out.resources ::
         r.gvr in required && r == CapturedFor(s, cluster, Core, r.gvr, now, staleAfter))
    && (forall g | g in required :: CapturedFor(s, cluster, Core, g, now, staleAfter) in out.resources)
    && out.state == Overall(out.resources)
  }

  /** A capture depends on the set of requested types only. */
  lemma RequestOrderIrrelevant(s: State, cluster: string, a: seq<Gvr>, b: seq<Gvr>, now: Time, staleAfter: int,
                               x: Snapshot, y: Snapshot)
    requires Inv(s)
    requires forall g :: g in a <==> g in b
    requires IsSnapshot(s, cluster, a, now, staleAfter, x) && IsSnapshot(s, cluster, b, now, staleAfter, y)
    ensures x == y
  {
    forall r ensures r in x.resources <==> r in y.resources {
      if r in x.resources { assert r.gvr in b; }
      if r in y.resources { assert r.gvr in a; }
    }
    StrictlySortedUnique(RowKey, x.resources, y.resources);
  }

  lemma OverallObserved(rows: seq<RowCapture>)
    ensures Overall(rows) == Observed <==> rows != [] && forall r | r in rows :: r.state == Observed
  {
    if rows != [] { assert rows[0] in rows; }
  }

  /** The overall state is "no known gap" exactly when something was requested and every requested type is observed. */
  lemma ObservedMeansEveryRow(s: State, cluster: string, required: seq<Gvr>, now: Time, staleAfter: int, out: Snapshot)
    requires Inv(s) && IsSnapshot(s, cluster, required, now, staleAfter, out)
    ensures out.state == Observed <==>
              required != [] && forall g | g in required ::
                  CapturedFor(s, cluster, Core, g, now, staleAfter).state == Observed
  {
    OverallObserved(out.resources);
    if required != [] { assert CapturedFor(s, cluster, Core, required[0], now, staleAfter) in out.resources; }
    if out.resources != [] { assert out.resources[0].gvr in required; }
  }

  /** In every reachable state each captured row has the meaning of CaptureMeaning, and a type
      with a recorded gap is never captured as observed again. */
  lemma GapNeverObservedAgain(s: State, ops: seq<Op>, cluster: string, source: Source, g: Gvr, now: Time,
                              staleAfter: int)
    requires Inv(s) && Lookup(s, cluster, source, g).row.Some? && HasGap(Lookup(s, cluster, source, g).row.value)
    ensures CapturedFor(Run(s, ops), cluster, source, g, now, staleAfter).state in {Partial, Stale}
  {
    StickyGaps(s, ops, cluster, source, g);
  }

  lemma ReachableRowMeaning(ops: seq<Op>, cluster: string, source: Source, g: Gvr, now: Time, staleAfter: int)
    requires Inv(Initial)
    ensures var c := CapturedFor(Run(Initial, ops), cluster, source, g, now, staleAfter);
            && (c.state == Observed <==> c.reasons == [])
            && (c.state == Stale ==> !c.established)
            && NoReason !in c.reasons
  {
    var t := Run(Initial, ops);
    var k := Current(t, cluster, source);
    if k.Some? {
      assert SessionOk(t, k.value);
      if g in t.sessions[k.value].rows { CaptureMeaning(t.sessions[k.value].rows[g], now, staleAfter); }
    }
  }

  /**
   * Two captures of a type, taken at any two times, that agree in generation and revision: every capture in between, at
   * whatever time, is the capture of the unchanged row. No gap was recorded in the window and none was repaired.
   */
  lemma StableWindow(s: State, a: seq<Op>, b: seq<Op>, cluster: string, source: Source, g: Gvr, first: Time,
                     last: Time, now: Time, staleAfter: int)
    requires Inv(s)
    requires Lookup(s, cluster, source, g).generation == Lookup(Run(s, a + b), cluster, source, g).generation
    requires CapturedFor(s, cluster, source, g, first, staleAfter).revision
             == CapturedFor(Run(s, a + b), cluster, source, g, last, staleAfter).revision
    ensures Lookup(Run(s, a), cluster, source, g) == Lookup(s, cluster, source, g)
    ensures CapturedFor(Run(s, a), cluster, source, g, now, staleAfter)
              == CapturedFor(s, cluster, source, g, now, staleAfter)
  {
    NothingUnseen(s, a, b, cluster, source, g);
  }

  // ---------------------------------------------------------------------------------
  // Sort keys separate valid types

  lemma {:induction false} SplitUnique(a: string, b: string, c: string, d: string, mark: char)
    requires mark !in a && mark !in c && a + [mark] + b == c + [mark] + d
    ensures a == c && b == d
    decreases |a|
  {
    var x, y := a + [mark] + b, c + [mark] + d;
    if a == [] || c == [] {
      assert x[0] == y[0];
      assert x[1..] == b && y[1..] == d;
    } else {
      assert x[0] == a[0] && y[0] == c[0];
      assert x[1..] == a[1..] + [mark] + b && y[1..] == c[1..] + [mark] + d;
      SplitUnique(a[1..], b, c[1..], d, mark);
      assert a == [a[0]] + a[1..] && c == [c[0]] + c[1..];
    }
  }

  lemma KeysSeparate(a: RowCapture, b: RowCapture)
    requires ValidGvr(a.gvr) && ValidGvr(b.gvr) && RowKey(a) == RowKey(b)
    ensures a.gvr == b.gvr
  {
    var x, y := a.gvr, b.gvr;
    assert RowKey(a)[0] == RowKey(b)[0];
    assert x.group + "/" + x.version + "/" + x.resource == x.group + ['/'] + (x.version + ['/'] + x.resource);
    assert y.group + "/" + y.version + "/" + y.resource == y.group + ['/'] + (y.version + ['/'] + y.resource);
    SplitUnique(x.group, x.version + ['/'] + x.resource, y.group, y.version + ['/'] + y.resource, '/');
    SplitUnique(x.version, x.resource, y.version, y.resource, '/');
  }
}
