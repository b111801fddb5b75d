/** A row of the coverage tracker says what happened to its registration: every field is what the list of
    accepted callbacks says it must be, and a type is observed exactly when that list is healthy. */
module CoverageHistory {
  import opened Options
  import opened CoverageModel
  import opened CoverageRuns
  import opened CoverageTheorems
  import opened CoverageCapture

  /** The row after some callbacks. */
  function After(r: Row, cs: seq<Change>): Row {
    if cs == [] then r else Touched(After(r, cs[..|cs| - 1]), cs[|cs| - 1])
  }

  // ---------------------------------------------------------------------------------
  // What a list of callbacks says

  function Starts(cs: seq<Change>): nat {
    if cs == [] then 0 else Starts(cs[..|cs| - 1]) + if cs[|cs| - 1].WatchStarted? then 1 else 0
  }

  /** Callback j closed the stream that was open then: it names no stream, or the last one opened. */
  predicate Ends(r: Row, cs: seq<Change>, j: nat) {
    j < |cs| && cs[j].WatchEnded? && (cs[j].endedEpoch == 0 || cs[j].endedEpoch == r.epoch + Starts(cs[..j]))
  }

  /** The stream opened by callback k is still open. */
  ghost predicate StillOpen(r: Row, cs: seq<Change>, k: nat) {
    k < |cs| && cs[k].WatchStarted? && forall j | k < j < |cs| :: !Ends(r, cs, j)
  }

  ghost predicate Delivered(cs: seq<Change>) {
    exists i | 0 <= i < |cs| :: cs[i].InitialDelivery?
  }

  /** Callback k reported the last list. */
  ghost predicate LastList(cs: seq<Change>, k: nat) {
    k < |cs| && cs[k].ListResult? && forall j | k < j < |cs| :: !cs[j].ListResult?
  }

  ghost predicate LastGoodList(cs: seq<Change>, k: nat) {
    && k < |cs| && cs[k].ListResult? && cs[k].success
    && forall j | k < j < |cs| :: !(cs[j].ListResult? && cs[j].success)
  }

  /** The three kinds of lost data; whatever is no extraction or persistence failure counts as processing. */
  datatype Loss = Processing | Extraction | Persistence

  function LossOf(reason: Reason): Loss {
    if reason == ExtractionFailed then Extraction else if reason == PersistenceFailed then Persistence else Processing
  }

  function ReasonOf(loss: Loss): Reason {
    match loss
    case Processing => ProcessingFailed
    case Extraction => ExtractionFailed
    case Persistence => PersistenceFailed
  }

  function GapOf(r: Row, loss: Loss): Time {
    match loss
    case Processing => r.processingGap
    case Extraction => r.extractionGap
    case Persistence => r.persistenceGap
  }

  predicate Reports(c: Change, loss: Loss) {
    c.RecordGap? && LossOf(c.reason) == loss && c.now != 0
  }

  /** Callback k is the first to report the loss. */
  ghost predicate FirstReport(cs: seq<Change>, k: nat, loss: Loss) {
    k < |cs| && Reports(cs[k], loss) && forall j | 0 <= j < k :: !Reports(cs[j], loss)
  }

  // ---------------------------------------------------------------------------------
  // The row says the same

  lemma Init(cs: seq<Change>, j: nat)
    requires cs != [] && j < |cs|
    ensures j < |cs| - 1 ==> cs[..|cs| - 1][j] == cs[j] && cs[..|cs| - 1][..j] == cs[..j]
  {
  }

  lemma {:induction false} EpochCounts(r: Row, cs: seq<Change>)
    ensures After(r, cs).epoch == r.epoch + Starts(cs)
  {
    if cs != [] { EpochCounts(r, cs[..|cs| - 1]); }
  }

  lemma {:induction false} DeliveryIsRecorded(r: Row, cs: seq<Change>)
    ensures After(r, cs).initialDone <==> r.initialDone || Delivered(cs)
  {
    if cs != [] {
      var init := cs[..|cs| - 1];
      DeliveryIsRecorded(r, init);
      if Delivered(init) {
        var i :| 0 <= i < |init| && init[i].InitialDelivery?;
        assert cs[i].InitialDelivery?;
      }
      if i :| 0 <= i < |cs| && cs[i].InitialDelivery? { Init(cs, i); }
    }
  }

  lemma {:induction false} NoListNoReason(r: Row, cs: seq<Change>)
    requires forall k | 0 <= k < |cs| :: !cs[k].ListResult?
    ensures After(r, cs).listReason == r.listReason
  {
    if cs != [] { NoListNoReason(r, cs[..|cs| - 1]); }
  }

  /** The list reason is that of the last list, whatever else happened since. */
  lemma {:induction false} LastListIsRecorded(r: Row, cs: seq<Change>, k: nat)
    requires LastList(cs, k)
    ensures After(r, cs).listReason == if cs[k].success then NoReason
              else if cs[k].denied then ListDenied else ListFailed
  {
    if k < |cs| - 1 {
      Init(cs, k);
      LastListIsRecorded(r, cs[..|cs| - 1], k);
    }
  }

  lemma {:induction false} LastGoodListIsRecorded(r: Row, cs: seq<Change>, k: nat)
    requires LastGoodList(cs, k)
    ensures After(r, cs).lastList == cs[k].now
  {
    if k < |cs| - 1 {
      Init(cs, k);
      LastGoodListIsRecorded(r, cs[..|cs| - 1], k);
    }
  }

  /** A callback changes a gap only by reporting the loss for the first time. */
  lemma GapTouched(r: Row, c: Change, loss: Loss)
    ensures GapOf(Touched(r, c), loss) == if GapOf(r, loss) == 0 && Reports(c, loss) then c.now else GapOf(r, loss)
  {
  }

  lemma {:induction false} KnownGapStays(r: Row, cs: seq<Change>, loss: Loss)
    requires GapOf(r, loss) != 0
    ensures GapOf(After(r, cs), loss) == GapOf(r, loss)
  {
    if cs != [] {
      KnownGapStays(r, cs[..|cs| - 1], loss);
      GapTouched(After(r, cs[..|cs| - 1]), cs[|cs| - 1], loss);
    }
  }

  lemma {:induction false} NoReportNoGap(r: Row, cs: seq<Change>, loss: Loss)
    requires GapOf(r, loss) == 0 && forall k | 0 <= k < |cs| :: !Reports(cs[k], loss)
    ensures GapOf(After(r, cs), loss) == 0
  {
    if cs != [] {
      NoReportNoGap(r, cs[..|cs| - 1], loss);
      GapTouched(After(r, cs[..|cs| - 1]), cs[|cs| - 1], loss);
    }
  }

  /** The first report of a loss is what the row keeps. */
  lemma {:induction false} FirstReportIsRecorded(r: Row, cs: seq<Change>, k: nat, loss: Loss)
    requires GapOf(r, loss) == 0 && FirstReport(cs, k, loss)
    ensures GapOf(After(r, cs), loss) == cs[k].now
  {
    var init := cs[..|cs| - 1];
    GapTouched(After(r, init), cs[|cs| - 1], loss);
    if k < |init| {
      Init(cs, k);
      FirstReportIsRecorded(r, init, k, loss);
    } else {
      NoReportNoGap(r, init, loss);
    }
  }

  lemma {:induction false} OpenStreamIsEstablished(r: Row, cs: seq<Change>)
    requires !r.established
    ensures After(r, cs).established <==> Open(r, cs)
  {
    if cs != [] {
      var init, n := cs[..|cs| - 1], |cs| - 1;
      OpenStreamIsEstablished(r, init);
      EpochCounts(r, init);
      forall j | 0 <= j < n ensures Ends(r, cs, j) <==> Ends(r, init, j) { Init(cs, j); }
      if cs[n].WatchStarted? {
        assert StillOpen(r, cs, n);
      } else {
        forall k: nat ensures StillOpen(r, cs, k) <==> StillOpen(r, init, k) && !Ends(r, cs, n) {
          if k < n { Init(cs, k); }
        }
      }
    }
  }

  /** The reason and the time of a disconnection: the streams ended after the last start by the
      callbacks of `closed`. */
  ghost predicate EndedAt(r: Row, cs: seq<Change>, k: nat) {
    Ends(r, cs, k) && forall j | k < j < |cs| :: !cs[j].WatchStarted?
  }

  /** Since the last start callback k is the first that ended the stream at a known time. */
  ghost predicate FirstEnd(r: Row, cs: seq<Change>, k: nat) {
    && EndedAt(r, cs, k) && cs[k].now != 0
    && forall j | 0 <= j < k && EndedAt(r, cs, j) :: cs[j].now == 0
  }

  /** Since the last start callback k is the last that ended the stream with an error. */
  ghost predicate LastError(r: Row, cs: seq<Change>, k: nat) {
    && EndedAt(r, cs, k) && WatchEndReason(cs[k].reason) != WatchClosed
    && forall j | k < j < |cs| && Ends(r, cs, j) :: WatchEndReason(cs[j].reason) == WatchClosed
  }

  lemma EndsBefore(r: Row, cs: seq<Change>, j: nat)
    requires cs != [] && j < |cs| - 1
    ensures Ends(r, cs, j) <==> Ends(r, cs[..|cs| - 1], j)
  {
    Init(cs, j);
  }

  /** An error that ended the stream stays the reason, closes after it notwithstanding, until a stream starts. */
  lemma {:induction false} LastErrorIsRecorded(r: Row, cs: seq<Change>, k: nat)
    requires LastError(r, cs, k)
    ensures After(r, cs).watchReason == WatchEndReason(cs[k].reason)
  {
    var init := cs[..|cs| - 1];
    EpochCounts(r, init);
    if k < |init| {
      forall j | k <= j < |init| ensures (Ends(r, cs, j) <==> Ends(r, init, j)) && init[j] == cs[j] {
        EndsBefore(r, cs, j);
      }
      LastErrorIsRecorded(r, init, k);
      assert WatchEndReason(cs[k].reason) in {WatchDenied, WatchFailed};
    }
  }

  /** Since the last start no stream was ended at a known time. */
  ghost predicate Unended(r: Row, cs: seq<Change>) {
    forall j: nat | EndedAt(r, cs, j) :: cs[j].now == 0
  }

  lemma UnendedBefore(r: Row, cs: seq<Change>)
    requires cs != [] && !cs[|cs| - 1].WatchStarted?
    requires forall j: nat | j < |cs| - 1 && EndedAt(r, cs, j) :: cs[j].now == 0
    ensures Unended(r, cs[..|cs| - 1])
  {
    var init := cs[..|cs| - 1];
    forall j: nat | EndedAt(r, init, j) ensures init[j].now == 0 {
      EndsBefore(r, cs, j);
      assert EndedAt(r, cs, j);
    }
  }

  lemma FirstEndBefore(r: Row, cs: seq<Change>, k: nat)
    requires FirstEnd(r, cs, k) && k < |cs| - 1
    ensures FirstEnd(r, cs[..|cs| - 1], k) && cs[..|cs| - 1][k] == cs[k]
  {
    var init := cs[..|cs| - 1];
    EndsBefore(r, cs, k);
    forall j | 0 <= j < k && EndedAt(r, init, j) ensures init[j].now == 0 {
      EndsBefore(r, cs, j);
      assert EndedAt(r, cs, j);
    }
  }

  lemma WatchGapTouched(r: Row, c: Change)
    ensures Touched(r, c).watchGap
            == if c.WatchStarted? then 0
               else if c.WatchEnded? && (c.endedEpoch == 0 || c.endedEpoch == r.epoch) && r.watchGap == 0 then c.now
               else r.watchGap
  {
  }

  lemma {:induction false} NoEndNoGap(r: Row, cs: seq<Change>)
    requires r.watchGap == 0 && Unended(r, cs)
    ensures After(r, cs).watchGap == 0
  {
    if cs != [] {
      var init, n := cs[..|cs| - 1], |cs| - 1;
      EpochCounts(r, init);
      WatchGapTouched(After(r, init), cs[n]);
      if !cs[n].WatchStarted? {
        UnendedBefore(r, cs);
        NoEndNoGap(r, init);
        assert Ends(r, cs, n) ==> EndedAt(r, cs, n);
      }
    }
  }

  /** While no stream starts, the time of the first end is kept. */
  lemma {:induction false} FirstEndIsRecorded(r: Row, cs: seq<Change>, k: nat)
    requires r.watchGap == 0 && FirstEnd(r, cs, k)
    ensures After(r, cs).watchGap == cs[k].now
  {
    var init, n := cs[..|cs| - 1], |cs| - 1;
    EpochCounts(r, init);
    WatchGapTouched(After(r, init), cs[n]);
    if k < n {
      FirstEndBefore(r, cs, k);
      FirstEndIsRecorded(r, init, k);
    } else {
      UnendedBefore(r, cs);
      NoEndNoGap(r, init);
    }
  }

  /** Callback m opened the last stream, and it was only ever closed, not failed. */
  ghost predicate OnlyClosed(r: Row, cs: seq<Change>, m: nat) {
    && m < |cs| && cs[m].WatchStarted?
    && (forall j | m < j < |cs| :: !cs[j].WatchStarted?)
    && (forall j | m < j < |cs| && Ends(r, cs, j) :: WatchEndReason(cs[j].reason) == WatchClosed)
  }

  ghost predicate EndedSince(r: Row, cs: seq<Change>, m: nat) {
    exists j | m < j < |cs| :: Ends(r, cs, j)
  }

  lemma OnlyClosedBefore(r: Row, cs: seq<Change>, m: nat)
    requires OnlyClosed(r, cs, m) && m < |cs| - 1
    ensures OnlyClosed(r, cs[..|cs| - 1], m)
    ensures EndedSince(r, cs, m) <==> EndedSince(r, cs[..|cs| - 1], m) || Ends(r, cs, |cs| - 1)
  {
    var init := cs[..|cs| - 1];
    forall j | m <= j < |init| ensures (Ends(r, cs, j) <==> Ends(r, init, j)) && init[j] == cs[j] {
      EndsBefore(r, cs, j);
    }
  }

  lemma CloseTouches(r: Row, c: Change)
    requires r.watchReason in {NoReason, WatchClosed} && !c.WatchStarted?
    ensures Touched(r, c).watchReason
            == if c.WatchEnded? && (c.endedEpoch == 0 || c.endedEpoch == r.epoch) then WatchEndReason(c.reason)
               else r.watchReason
  {
  }

  /** A stream that was closed without an error shows that, and one that is open shows nothing. */
  lemma {:induction false} CloseIsRecorded(r: Row, cs: seq<Change>, m: nat)
    requires OnlyClosed(r, cs, m)
    ensures After(r, cs).watchReason == if EndedSince(r, cs, m) then WatchClosed else NoReason
  {
    var init, n := cs[..|cs| - 1], |cs| - 1;
    if m < n {
      EpochCounts(r, init);
      OnlyClosedBefore(r, cs, m);
      CloseIsRecorded(r, init, m);
      CloseTouches(After(r, init), cs[n]);
    }
  }

  // ---------------------------------------------------------------------------------
  // Along a run

  /** The callback that an operation makes on the row, if its handle may. */
  ghost function Accepted(s: State, op: Op, k: nat, gvr: Gvr): seq<Change>
    requires Linked(s)
  {
    if op.Update? && op.gvr == gvr && Writable(s, op.sid, gvr) && Owner(s, op.sid) == k then [op.change] else []
  }

  ghost function ChangesTo(s: State, ops: seq<Op>, k: nat, gvr: Gvr): seq<Change>
    requires Inv(s)
    decreases |ops|
  {
    if ops == [] then []
    else
      ApplyKeepsInv(s, ops[0]);
      Accepted(s, ops[0], k, gvr) + ChangesTo(Apply(s, ops[0]), ops[1..], k, gvr)
  }

  ghost predicate HasRow(s: State, k: nat, gvr: Gvr) {
    k < |s.sessions| && s.sessions[k].Root? && gvr in s.sessions[k].rows
  }

  ghost function RowOf(s: State, k: nat, gvr: Gvr): Row
    requires HasRow(s, k, gvr)
  {
    s.sessions[k].rows[gvr]
  }

  /** The registration of the row is the same, and still live. */
  ghost predicate SameLive(s: State, t: State, k: nat, gvr: Gvr) {
    HasRow(s, k, gvr) && HasRow(t, k, gvr) && RowOf(s, k, gvr).serial == RowOf(t, k, gvr).serial
        && !RowOf(t, k, gvr).stopped
  }

  lemma {:induction false} AfterAppend(r: Row, a: seq<Change>, b: seq<Change>)
    ensures After(r, a + b) == After(After(r, a), b)
    decreases |b|
  {
    if b == [] {
      assert a + b == a;
    } else {
      assert (a + b)[..|a + b| - 1] == a + b[..|b| - 1];
      AfterAppend(r, a, b[..|b| - 1]);
    }
  }

  lemma AfterOne(r: Row, c: Change)
    ensures After(r, [c]) == Touched(r, c)
  {
    assert [c][..0] == [];
  }

  lemma UpdateStep(s: State, sid: nat, g: Gvr, c: Change, k: nat, gvr: Gvr)
    requires Linked(s) && HasRow(s, k, gvr)
    ensures var t := Apply(s, Update(sid, g, c));
            HasRow(t, k, gvr) && RowOf(t, k, gvr) == After(RowOf(s, k, gvr), Accepted(s, Update(sid, g, c), k, gvr))
  {
    AfterOne(RowOf(s, k, gvr), c);
  }

  lemma OtherStep(s: State, op: Op, k: nat, gvr: Gvr)
    requires Inv(s) && HasRow(s, k, gvr) && !op.Update? && SameLive(s, Apply(s, op), k, gvr)
    ensures RowOf(Apply(s, op), k, gvr) == RowOf(s, k, gvr)
  {
    match op
    case BeginType(sid, g, now) => TypeStep(s, sid, g, now, k, gvr);
    case Stop(sid, now) => StopStep(s, sid, now, k, gvr);
    case _ =>
  }

  lemma TypeStep(s: State, sid: nat, g: Gvr, now: Time, k: nat, gvr: Gvr)
    requires Inv(s) && HasRow(s, k, gvr) && SameLive(s, Apply(s, BeginType(sid, g, now)), k, gvr)
    ensures RowOf(Apply(s, BeginType(sid, g, now)), k, gvr) == RowOf(s, k, gvr)
  {
    assert SessionOk(s, k);
    if TypeAccepted(s, sid, g, now) { RegisteredSessions(s, sid, g, now); }
  }

  lemma StopStep(s: State, sid: nat, now: Time, k: nat, gvr: Gvr)
    requires Inv(s) && HasRow(s, k, gvr) && SameLive(s, Apply(s, Stop(sid, now)), k, gvr)
    ensures RowOf(Apply(s, Stop(sid, now)), k, gvr) == RowOf(s, k, gvr)
  {
    if Active(s, sid) { assert ParentOk(s.sessions, sid); }
  }

  lemma OneStep(s: State, op: Op, k: nat, gvr: Gvr)
    requires Inv(s) && SameLive(s, Apply(s, op), k, gvr)
    ensures RowOf(Apply(s, op), k, gvr) == After(RowOf(s, k, gvr), Accepted(s, op, k, gvr))
  {
    if op.Update? { UpdateStep(s, op.sid, op.gvr, op.change, k, gvr); } else { OtherStep(s, op, k, gvr); }
  }

  lemma SameLiveBetween(s: State, t: State, u: State, k: nat, gvr: Gvr)
    requires Evolves(s, t) && Evolves(t, u) && SameLive(s, u, k, gvr)
    ensures SameLive(s, t, k, gvr) && SameLive(t, u, k, gvr)
  {
    assert SessionEvolves(s.sessions[k], t.sessions[k]) && SessionEvolves(t.sessions[k], u.sessions[k]);
  }

  /** While a registration lasts, its row is the row it began with after exactly the callbacks that were accepted. */
  lemma {:induction false} RowIsItsHistory(s: State, ops: seq<Op>, k: nat, gvr: Gvr)
    requires Inv(s) && SameLive(s, Run(s, ops), k, gvr)
    ensures RowOf(Run(s, ops), k, gvr) == After(RowOf(s, k, gvr), ChangesTo(s, ops, k, gvr))
    decreases |ops|
  {
    if ops != [] {
      var t := Apply(s, ops[0]);
      ApplyKeepsInv(s, ops[0]);
      ApplyEvolves(s, ops[0]);
      RunEvolves(t, ops[1..]);
      SameLiveBetween(s, t, Run(s, ops), k, gvr);
      OneStep(s, ops[0], k, gvr);
      RowIsItsHistory(t, ops[1..], k, gvr);
      AfterAppend(RowOf(s, k, gvr), Accepted(s, ops[0], k, gvr), ChangesTo(t, ops[1..], k, gvr));
    }
  }

  // ---------------------------------------------------------------------------------
  // Observed, exactly

  /** A row as a registration leaves it: nothing delivered, listed or opened yet; known gaps may be inherited. */
  predicate JustRegistered(r: Row) {
    && !r.initialDone && !r.established && !r.stopped && r.listReason == NoReason && r.watchReason == WatchPending
    && r.watchGap == 0 && r.epoch == 0
  }

  /** A registration whose callbacks reported what a working collector reports: a delivery, an open stream, no failed
      last list and no loss, now or before. */
  ghost predicate Healthy(r: Row, cs: seq<Change>) {
    Delivered(cs) && Open(r, cs) && GoodLists(cs) && forall loss :: Lossless(r, cs, loss)
  }

  ghost predicate Open(r: Row, cs: seq<Change>) {
    exists k :: StillOpen(r, cs, k)
  }

  ghost predicate GoodLists(cs: seq<Change>) {
    forall k: nat | LastList(cs, k) :: cs[k].success
  }

  ghost predicate Lossless(r: Row, cs: seq<Change>, loss: Loss) {
    GapOf(r, loss) == 0 && forall k | 0 <= k < |cs| :: !Reports(cs[k], loss)
  }

  lemma ListsAreHealthy(r: Row, cs: seq<Change>)
    requires r.listReason == NoReason
    ensures After(r, cs).listReason == NoReason <==> GoodLists(cs)
  {
    if k: nat :| LastList(cs, k) {
      LastListIsRecorded(r, cs, k);
      forall j: nat | LastList(cs, j) ensures j == k {
      }
    } else {
      NobodyListed(cs);
      NoListNoReason(r, cs);
    }
  }

  lemma {:induction false} NobodyListed(cs: seq<Change>)
    requires forall k: nat :: !LastList(cs, k)
    ensures forall k | 0 <= k < |cs| :: !cs[k].ListResult?
  {
    if cs != [] {
      var init, n := cs[..|cs| - 1], |cs| - 1;
      assert !LastList(cs, n);
      forall k: nat ensures !LastList(init, k) {
        if LastList(init, k) { assert LastList(cs, k); }
      }
      NobodyListed(init);
      forall k | 0 <= k < |cs| ensures !cs[k].ListResult? { Init(cs, k); }
    }
  }

  lemma GapsAreHealthy(r: Row, cs: seq<Change>, loss: Loss)
    ensures GapOf(After(r, cs), loss) == 0 <==> Lossless(r, cs, loss)
  {
    if GapOf(r, loss) != 0 {
      KnownGapStays(r, cs, loss);
    } else if k :| 0 <= k < |cs| && Reports(cs[k], loss) {
      var first := Earliest(cs, k, loss);
      FirstReportIsRecorded(r, cs, first, loss);
    } else {
      NoReportNoGap(r, cs, loss);
    }
  }

  lemma {:induction false} Earliest(cs: seq<Change>, k: nat, loss: Loss) returns (first: nat)
    requires k < |cs| && Reports(cs[k], loss)
    ensures FirstReport(cs, first, loss)
  {
    if j :| 0 <= j < k && Reports(cs[j], loss) { first := Earliest(cs, j, loss); } else { first := k; }
  }

  lemma {:induction false} HealthyIsObserved(r: Row, cs: seq<Change>, now: Time, staleAfter: int)
    requires JustRegistered(r) && RowOk(After(r, cs)) && !After(r, cs).stopped
    ensures Captured(After(r, cs), now, staleAfter).state == Observed <==> Healthy(r, cs)
  {
    var q := After(r, cs);
    DeliveryIsRecorded(r, cs);
    OpenStreamIsEstablished(r, cs);
    ListsAreHealthy(r, cs);
    GapsAreHealthy(r, cs, Processing);
    GapsAreHealthy(r, cs, Extraction);
    GapsAreHealthy(r, cs, Persistence);
    assert (forall loss :: Lossless(r, cs, loss)) <==> !HasGap(q) by {
      if !HasGap(q) {
        forall loss ensures Lossless(r, cs, loss) {
          match loss
          case Processing =>
          case Extraction =>
          case Persistence =>
        }
      }
    }
    assert Captured(q, now, staleAfter).state == Observed <==>
             q.initialDone && q.established && q.listReason == NoReason && !HasGap(q);
  }

  /** While the registration lasts and its session holds the slot, a capture shows the type as observed exactly when the
      accepted callbacks since it was registered are healthy. */
  lemma ObservedExactlyWhenHealthy(s: State, ops: seq<Op>, k: nat, gvr: Gvr, now: Time, staleAfter: int)
    requires Inv(s) && SameLive(s, Run(s, ops), k, gvr) && JustRegistered(RowOf(s, k, gvr))
    requires Current(Run(s, ops), s.sessions[k].cluster, s.sessions[k].source) == Some(k)
    ensures CapturedFor(Run(s, ops), s.sessions[k].cluster, s.sessions[k].source, gvr, now, staleAfter).state
              == Observed
            <==> Healthy(RowOf(s, k, gvr), ChangesTo(s, ops, k, gvr))
  {
    var t := Run(s, ops);
    RowIsItsHistory(s, ops, k, gvr);
    assert SessionOk(t, k);
    HealthyIsObserved(RowOf(s, k, gvr), ChangesTo(s, ops, k, gvr), now, staleAfter);
  }

  /** A newly registered row, of a session or of a token, is such a beginning. */
  lemma RegistrationsStartEmpty(s: State, sid: nat, gvr: Gvr, now: Time)
    requires Inv(s) && TypeAccepted(s, sid, gvr, now)
    ensures var t := Apply(s, BeginType(sid, gvr, now));
            HasRow(t, sid, gvr) && JustRegistered(RowOf(t, sid, gvr)) && RowOf(t, sid, gvr).since == now
  {
    RegisteredSessions(s, sid, gvr, now);
  }

  // ---------------------------------------------------------------------------------
  // Gaps and lists, as they are shown

  /** A reported loss is stored with its first time, and from then on every capture of the type, whatever happens, names
      it and is partial or stale. */
  lemma ReportedLossIsShown(s: State, sid: nat, gvr: Gvr, reason: Reason, now: Time, ops: seq<Op>, later: Time,
                            staleAfter: int)
    requires Inv(s) && Writable(s, sid, gvr) && now != 0
    ensures var k, t := Owner(s, sid), Apply(s, Update(sid, gvr, RecordGap(reason, now)));
            && Inv(t) && HasRow(t, k, gvr)
            && var was, kept := GapOf(RowOf(s, k, gvr), LossOf(reason)), GapOf(RowOf(t, k, gvr), LossOf(reason));
               && kept == (if was != 0 then was else now)
               && (was == 0 ==> RowOf(t, k, gvr).revision > RowOf(s, k, gvr).revision)
               && var c := CapturedFor(Run(t, ops), s.sessions[k].cluster, s.sessions[k].source, gvr, later,
                  staleAfter);
                  ReasonOf(LossOf(reason)) in c.reasons && c.state in {Partial, Stale}
  {
    var k, op := Owner(s, sid), Update(sid, gvr, RecordGap(reason, now));
    var t := Apply(s, op);
    ApplyKeepsInv(s, op);
    LossIsStored(RowOf(s, k, gvr), reason, now);
    UpdateStep(s, sid, gvr, RecordGap(reason, now), k, gvr);
    AfterOne(RowOf(s, k, gvr), RecordGap(reason, now));
    assert Current(t, s.sessions[k].cluster, s.sessions[k].source) == Some(k);
    StickyGaps(t, ops, s.sessions[k].cluster, s.sessions[k].source, gvr);
    StoredLossIsShown(Lookup(Run(t, ops), s.sessions[k].cluster, s.sessions[k].source, gvr).row.value,
                      LossOf(reason), later, staleAfter);
  }

  lemma LossIsStored(r: Row, reason: Reason, now: Time)
    requires now != 0
    ensures var q := Touched(r, RecordGap(reason, now));
            var was := GapOf(r, LossOf(reason));
            GapOf(q, LossOf(reason)) == (if was != 0 then was else now) && (was == 0 ==> q.revision > r.revision)
  {
  }

  lemma StoredLossIsShown(r: Row, loss: Loss, now: Time, staleAfter: int)
    requires GapOf(r, loss) != 0
    ensures ReasonOf(loss) in Captured(r, now, staleAfter).reasons
              && Captured(r, now, staleAfter).state in {Partial, Stale}
  {
    assert ReasonOf(loss) in GapReasons(r);
  }

  /** A failed list is shown, as denied or failed, until a list succeeds. */
  lemma FailedListIsShown(s: State, ops: seq<Op>, k: nat, gvr: Gvr, i: nat, now: Time, staleAfter: int)
    requires Inv(s) && SameLive(s, Run(s, ops), k, gvr) && LastList(ChangesTo(s, ops, k, gvr), i)
    requires Current(Run(s, ops), s.sessions[k].cluster, s.sessions[k].source) == Some(k)
    ensures var last := ChangesTo(s, ops, k, gvr)[i];
            var c := CapturedFor(Run(s, ops), s.sessions[k].cluster, s.sessions[k].source, gvr, now, staleAfter);
            && (!last.success ==>
                  (if last.denied then ListDenied else ListFailed) in c.reasons && c.state in {Partial, Stale})
            && (last.success && JustRegistered(RowOf(s, k, gvr)) ==>
                  ListDenied !in c.reasons && ListFailed !in c.reasons)
  {
    RowIsItsHistory(s, ops, k, gvr);
    LastListIsRecorded(RowOf(s, k, gvr), ChangesTo(s, ops, k, gvr), i);
    WatchReasons(RowOf(s, k, gvr), ChangesTo(s, ops, k, gvr));
    ListReasonIsShown(RowOf(Run(s, ops), k, gvr), now, staleAfter);
  }

  lemma {:induction false} WatchReasons(r: Row, cs: seq<Change>)
    ensures After(r, cs).watchReason in {r.watchReason, NoReason, WatchClosed, WatchDenied, WatchFailed}
  {
    if cs != [] { WatchReasons(r, cs[..|cs| - 1]); }
  }

  lemma ListReasonIsShown(r: Row, now: Time, staleAfter: int)
    ensures r.listReason != NoReason ==>
              r.listReason in Captured(r, now, staleAfter).reasons
                  && Captured(r, now, staleAfter).state in {Partial, Stale}
    ensures r.listReason == NoReason && r.watchReason !in {ListDenied, ListFailed} ==>
              ListDenied !in Captured(r, now, staleAfter).reasons && ListFailed !in Captured(r, now, staleAfter).reasons
  {
    ReasonsExactly(r, r.listReason);
    ReasonsExactly(r, ListDenied);
    ReasonsExactly(r, ListFailed);
  }

  // ---------------------------------------------------------------------------------
  // Sessions, as they are shown

  /** A row whose collector is gone shows that, and is never observed. */
  lemma StoppedIsShown(r: Row, now: Time, staleAfter: int)
    requires r.stopped
    ensures CollectorStopped in Captured(r, now, staleAfter).reasons
              && Captured(r, now, staleAfter).state in {Partial, Stale}
  {
    ReasonsExactly(r, CollectorStopped);
  }

  /** After a session was opened every type it was asked to watch starts empty, and every type of the session it
      replaced that is not watched any more shows that its collector stopped. */
  lemma BeginShowsEveryType(s: State, cluster: string, source: Source, gvrs: seq<Gvr>, now: Time, g: Gvr, later: Time,
                            staleAfter: int)
    requires Inv(s) && BeginAccepted(s, cluster, source, gvrs, now)
    ensures var t := Begun(s, cluster, source, gvrs, now);
            && Inv(t) && t.nextGeneration > s.nextGeneration
            && Lookup(t, cluster, source, g).generation == t.nextGeneration
            && (g in gvrs ==>
                  && Lookup(t, cluster, source, g).row.Some?
                  && JustRegistered(Lookup(t, cluster, source, g).row.value)
                  && Lookup(t, cluster, source, g).row.value.since == now)
            && (g !in gvrs && Lookup(s, cluster, source, g).row.Some? ==>
                  && CollectorStopped in CapturedFor(t, cluster, source, g, later, staleAfter).reasons
                  && CapturedFor(t, cluster, source, g, later, staleAfter).state in {Partial, Stale})
            && (g !in gvrs && Lookup(s, cluster, source, g).row.None? ==> Lookup(t, cluster, source, g).row.None?)
  {
    BegunKeepsInv(s, cluster, source, gvrs, now);
    CurrentAfterBegun(s, cluster, source, gvrs, now, cluster, source);
    var prior := PreviousRows(s, cluster, source);
    BegunTypes(prior, gvrs, now, g);
    if g in BegunRows(prior, gvrs, now) && g !in gvrs {
      StoppedIsShown(BegunRows(prior, gvrs, now)[g], later, staleAfter);
    }
  }

  lemma BegunTypes(prior: map<Gvr, Row>, gvrs: seq<Gvr>, now: Time, g: Gvr)
    ensures var rows := BegunRows(prior, gvrs, now);
            && (g in rows <==> g in gvrs || g in prior)
            && (g in gvrs ==> JustRegistered(rows[g]) && rows[g].since == now)
            && (g in rows && g !in gvrs ==> rows[g].stopped)
  {
  }

  /** After Stop of a session every type it held shows that its collector stopped. */
  lemma StopShowsEveryType(s: State, sid: nat, now: Time, g: Gvr, later: Time, staleAfter: int)
    requires Inv(s) && Active(s, sid) && s.sessions[sid].Root? && g in s.sessions[sid].rows
    ensures var t := Apply(s, Stop(sid, now));
            && Linked(t)
            && var c := CapturedFor(t, s.sessions[sid].cluster, s.sessions[sid].source, g, later, staleAfter);
               CollectorStopped in c.reasons && c.state in {Partial, Stale}
  {
    ApplyKeepsInv(s, Stop(sid, now));
    var t := Apply(s, Stop(sid, now));
    assert Current(t, s.sessions[sid].cluster, s.sessions[sid].source) == Some(sid);
    StoppedIsShown(t.sessions[sid].rows[g], later, staleAfter);
  }

  /** After Stop of a token its type shows that, and the other types of the session are as they were. */
  lemma TokenStopShowsItsType(s: State, sid: nat, now: Time, later: Time, staleAfter: int)
    requires Inv(s) && sid < |s.sessions| && s.sessions[sid].Child? && Writable(s, sid, s.sessions[sid].gvr)
    ensures var x, t := s.sessions[sid], Apply(s, Stop(sid, now));
            && Linked(t) && HasRow(t, x.parent, x.gvr)
            && (forall g | g != x.gvr && HasRow(s, x.parent, g) ::
                  HasRow(t, x.parent, g) && RowOf(t, x.parent, g) == RowOf(s, x.parent, g))
            && var c := CapturedFor(t, t.sessions[x.parent].cluster, t.sessions[x.parent].source, x.gvr, later,
               staleAfter);
               CollectorStopped in c.reasons && c.state in {Partial, Stale}
  {
    ApplyKeepsInv(s, Stop(sid, now));
    var x, t := s.sessions[sid], Apply(s, Stop(sid, now));
    assert ParentOk(s.sessions, sid);
    assert Current(t, t.sessions[x.parent].cluster, t.sessions[x.parent].source) == Some(x.parent);
    StoppedIsShown(RowOf(t, x.parent, x.gvr), later, staleAfter);
  }

  // ---------------------------------------------------------------------------------
  // Scopes, spelled out

  /** Which clusters and types the tracker takes. */
  lemma ScopesSpelledOut(cluster: string, gvrs: seq<Gvr>)
    ensures ValidScope(cluster, gvrs) <==>
              && |cluster| < 254 && !('/' in cluster || ':' in cluster) && |gvrs| < 257
              && forall g | g in gvrs ::
                   && g.version != "" && g.resource != "" && |g.group| + |g.version| + |g.resource| < 769
                   && forall c | c in g.group || c in g.version || c in g.resource :: c != '/' && c != ':' && c != '\0'
  {
    forall i | 0 <= i < |gvrs| ensures gvrs[i] in gvrs {
    }
  }

  // ---------------------------------------------------------------------------------
  // Discovery

  /** The call records a result: on the active Gatekeeper session itself, a known result with its time or an unknown one
      without. */
  predicate RecordsDiscovery(s: State, op: Op, k: nat)
    requires Linked(s)
  {
    && op.RecordDiscovery? && op.sid == k && Active(s, k) && s.sessions[k].Root? && s.sessions[k].source == Gatekeeper
    && op.found in {ApiUnknown, ApiAdvertised, ApiNotAdvertised, ApiDenied, ApiFailed}
       && (op.found == ApiUnknown <==> op.checked == 0)
  }

  /** The last result that was recorded, numbered by how many there were. */
  ghost function LastDiscovery(s: State, ops: seq<Op>, k: nat, was: Option<Discovery>): Option<Discovery>
    requires Inv(s)
    decreases |ops|
  {
    if ops == [] then was
    else
      ApplyKeepsInv(s, ops[0]);
      var next := if !RecordsDiscovery(s, ops[0], k) then was
                  else Some(Discovery(ops[0].found, ops[0].checked, if was.Some? then was.value.revision + 1 else 1));
      LastDiscovery(Apply(s, ops[0]), ops[1..], k, next)
  }

  /** A session shows the discovery result recorded last, whatever happens in between. */
  lemma {:induction false} LastDiscoveryIsRecorded(s: State, ops: seq<Op>, k: nat)
    requires Inv(s) && k < |s.sessions| && s.sessions[k].Root?
    ensures k < |Run(s, ops).sessions| && Run(s, ops).sessions[k].Root?
    ensures Run(s, ops).sessions[k].discovery == LastDiscovery(s, ops, k, s.sessions[k].discovery)
    decreases |ops|
  {
    if ops != [] {
      ApplyKeepsInv(s, ops[0]);
      DiscoveryStep(s, ops[0], k);
      LastDiscoveryIsRecorded(Apply(s, ops[0]), ops[1..], k);
    }
  }

  predicate SameDiscovery(s: State, t: State, k: nat) {
    && k < |s.sessions| && k < |t.sessions| && s.sessions[k].Root? && t.sessions[k].Root?
    && t.sessions[k].discovery == s.sessions[k].discovery
  }

  predicate ShowsDiscovery(x: Session, found: DiscoveryState, checked: Time, was: Option<Discovery>) {
    && x.Root? && x.discovery.Some? && x.discovery.value.state == found && x.discovery.value.checkedAt == checked
    && x.discovery.value.revision == if was.Some? then was.value.revision + 1 else 1
  }

  lemma {:induction false} RecordStep(s: State, sid: nat, found: DiscoveryState, checked: Time, k: nat)
    requires Linked(s) && k < |s.sessions| && s.sessions[k].Root?
    ensures var t := Apply(s, RecordDiscovery(sid, found, checked));
            if RecordsDiscovery(s, RecordDiscovery(sid, found, checked), k)
            then k < |t.sessions| && ShowsDiscovery(t.sessions[k], found, checked, s.sessions[k].discovery)
            else SameDiscovery(s, t, k)
  {
  }

  lemma {:induction false} StopDiscovery(s: State, sid: nat, now: Time, k: nat)
    requires Linked(s) && k < |s.sessions| && s.sessions[k].Root?
    ensures SameDiscovery(s, Apply(s, Stop(sid, now)), k)
  {
  }

  lemma {:induction false} TypeDiscovery(s: State, sid: nat, gvr: Gvr, now: Time, k: nat)
    requires Inv(s) && k < |s.sessions| && s.sessions[k].Root?
    ensures SameDiscovery(s, Apply(s, BeginType(sid, gvr, now)), k)
  {
    if TypeAccepted(s, sid, gvr, now) { RegisteredSessions(s, sid, gvr, now); }
  }

  lemma {:induction false} BeginDiscovery(s: State, op: Op, k: nat)
    requires Linked(s) && k < |s.sessions| && s.sessions[k].Root?
    requires op.Begin? || op.BeginSource? || op.BeginInventory? || op.Update?
    ensures SameDiscovery(s, Apply(s, op), k)
  {
  }

  lemma {:induction false} DiscoveryStep(s: State, op: Op, k: nat)
    requires Inv(s) && k < |s.sessions| && s.sessions[k].Root?
    ensures var t := Apply(s, op);
            if RecordsDiscovery(s, op, k)
            then k < |t.sessions| && ShowsDiscovery(t.sessions[k], op.found, op.checked, s.sessions[k].discovery)
            else SameDiscovery(s, t, k)
  {
    match op
    case BeginType(sid, gvr, now) => TypeDiscovery(s, sid, gvr, now, k);
    case Stop(sid, now) => StopDiscovery(s, sid, now, k);
    case RecordDiscovery(sid, found, checked) => RecordStep(s, sid, found, checked, k);
    case _ => BeginDiscovery(s, op, k);
  }
}
