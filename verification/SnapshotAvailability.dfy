/** What the availability reader may say about recorded history, read from the live writer. */
module SnapshotAvailability {

  import opened Options
  import opened SnapshotWriter

  datatype HistoryState = Unknown | Disabled | Unsupported | Initializing | Recording | Degraded | Stopped

  datatype Reason =
    | NotConfigured | RequiresTier2 | ScopeUnknown | WriterMissing | StartPending | WriterStopped
    | QueueGap | WriteGap | DeliveryPending | StorageUnknownReason | StorageStaleReason | StorageFailed

  datatype Coverage = CoverageUnknown | CoveragePartial

  /** What is said about stored history, beyond the writer's own state. */
  datatype RetainedData = NotQueried | DataObserved | DataUnavailable

  datatype HistoryReport = HistoryReport(state: HistoryState, reasons: seq<Reason>, coverage: Coverage,
                                         retained: RetainedData)

  /** The values one call loads, each from whatever the writer holds at that moment. */
  datatype Reads = Reads(started: bool, failed: nat, dropped: nat, depth: nat, inFlight: int, closed: bool,
                         cancelled: bool)

  predicate Loss(r: Reads) {
    r.dropped > 0 || r.failed > 0
  }

  predicate Ended(r: Reads) {
    r.closed || (r.started && r.cancelled)
  }

  ghost predicate Distinct(reasons: seq<Reason>) {
    forall i, j | 0 <= i < j < |reasons| :: reasons[i] != reasons[j]
  }

  function Noted(reasons: seq<Reason>, when: bool, reason: Reason): (r: seq<Reason>)
    ensures forall x :: x in r <==> x in reasons || (when && x == reason)
    ensures Distinct(reasons) && reason !in reasons ==> Distinct(r)
  {
    if when then reasons + [reason] else reasons
  }

  method LossReasons(r: Reads) returns (reasons: seq<Reason>)
    ensures Distinct(reasons) && forall x | x in reasons :: x in {StartPending, QueueGap, WriteGap}
    ensures StartPending in reasons <==> !r.started
    ensures QueueGap in reasons <==> r.dropped > 0
    ensures WriteGap in reasons <==> r.failed > 0
  {
    reasons := Noted([], !r.started, StartPending);
    reasons := Noted(reasons, r.dropped > 0, QueueGap);
    reasons := Noted(reasons, r.failed > 0, WriteGap);
  }

  /** historyAvailability */
  method HistoryAvailability(r: Reads) returns (out: HistoryReport)
    ensures out.state == Recording <==> r.started && !Loss(r) && !Ended(r)
    ensures out.state == Stopped <==> Ended(r)
    ensures out.state == Degraded <==> Loss(r) && !Ended(r)
    ensures out.state in {Initializing, Recording, Degraded, Stopped} && out.retained == NotQueried
    ensures out.coverage == CoveragePartial <==> Loss(r)
    ensures StartPending in out.reasons <==> !r.started
    ensures QueueGap in out.reasons <==> r.dropped > 0
    ensures WriteGap in out.reasons <==> r.failed > 0
    ensures DeliveryPending in out.reasons <==> r.depth > 0 || r.inFlight > 0
    ensures WriterStopped in out.reasons <==> Ended(r)
    ensures Distinct(out.reasons) && forall x | x in out.reasons ::
              x in {StartPending, QueueGap, WriteGap, DeliveryPending, WriterStopped}
  {
    var state, coverage := Initializing, CoverageUnknown;
    if r.started { state := Recording; }
    var reasons := LossReasons(r);
    if r.dropped > 0 || r.failed > 0 { state, coverage := Degraded, CoveragePartial; }
    reasons := Noted(reasons, r.depth > 0 || r.inFlight > 0, DeliveryPending);
    var stopped := r.closed;
    if r.started && r.cancelled { stopped := true; }
    if stopped { state := Stopped; }
    reasons := Noted(reasons, stopped, WriterStopped);
    out := HistoryReport(state, reasons, coverage, NotQueried);
  }

  datatype Config = Config(durable: bool, historyEnabled: bool, federated: bool, retention: int)

  datatype StorageState = StorageUnknown | StorageAvailable | StorageUnavailable | StorageStale

  datatype Storage = Storage(state: StorageState, durabilityKnown: bool, durable: bool)

  /** The storage monitor and the retention observer answer or fail. */
  datatype Probe<T> = Answered(value: T) | Broken

  datatype RetentionState = RetentionObserved | RetentionFailed | RetentionUnsupported | RetentionPending

  datatype Observer = Observer(retention: int, answer: Probe<RetentionState>)

  datatype Failure = ScopeError | ConfigError | StorageError | RetentionError

  datatype Answer = Report(storage: Storage, history: HistoryReport) | Rejected(failure: Failure)

  predicate ValidScope(cluster: string, federated: bool) {
    |cluster| <= 253 && '/' !in cluster && ':' !in cluster && '\0' !in cluster && (federated <==> cluster != "")
  }

  /** The storage evidence used: what the monitor says, or nothing known when there is none. */
  function Evidence(config: Config, monitor: Option<Probe<Storage>>): Storage {
    if monitor.Some? && monitor.value.Answered? then monitor.value.value
        else Storage(StorageUnknown, true, config.durable)
  }

  predicate Consistent(config: Config, monitor: Option<Probe<Storage>>) {
    && config.retention >= 0 && monitor != Some(Broken)
    && Evidence(config, monitor).durabilityKnown && Evidence(config, monitor).durable == config.durable
  }

  /** History is configured for this process, and a writer records it. */
  predicate Served(config: Config, writer: Option<Reads>) {
    config.historyEnabled && config.durable && !config.federated && writer.Some?
  }

  predicate RetentionUsable(config: Config, observer: Option<Observer>) {
    observer.Some? ==> observer.value.retention == config.retention && observer.value.answer.Answered?
  }

  /** Each state means one condition. */
  ghost predicate StatesMean(config: Config, storage: Storage, writer: Option<Reads>, state: HistoryState) {
    var served := Served(config, writer);
    && (state == Disabled <==> !config.historyEnabled)
    && (state == Unsupported <==> config.historyEnabled && (!config.durable || config.federated))
    && (state == Unknown <==> config.historyEnabled && config.durable && !config.federated && writer.None?)
    && (state == Stopped <==> served && Ended(writer.value))
    && (state == Degraded <==>
          served && !Ended(writer.value)
          && (Loss(writer.value) || (writer.value.started && storage.state == StorageUnavailable)))
    && (state == Initializing <==> served && !Ended(writer.value) && !Loss(writer.value) && !writer.value.started)
    && (state == Recording <==>
          served && writer.value.started && !Ended(writer.value) && !Loss(writer.value)
              && storage.state != StorageUnavailable)
  }

  /** Each reason is given exactly when it applies. */
  ghost predicate ReasonsMean(config: Config, storage: Storage, writer: Option<Reads>, reasons: seq<Reason>) {
    var served := Served(config, writer);
    && Distinct(reasons)
    && (NotConfigured in reasons <==> !config.historyEnabled)
    && (RequiresTier2 in reasons <==> config.historyEnabled && !config.durable)
    && (ScopeUnknown in reasons <==> config.historyEnabled && config.durable && config.federated)
    && (WriterMissing in reasons <==> config.historyEnabled && config.durable && !config.federated && writer.None?)
    && (StartPending in reasons <==> served && !writer.value.started)
    && (QueueGap in reasons <==> served && writer.value.dropped > 0)
    && (WriteGap in reasons <==> served && writer.value.failed > 0)
    && (DeliveryPending in reasons <==> served && (writer.value.depth > 0 || writer.value.inFlight > 0))
    && (WriterStopped in reasons <==> served && Ended(writer.value))
    && (StorageUnknownReason in reasons <==> served && storage.state == StorageUnknown)
    && (StorageStaleReason in reasons <==> served && storage.state == StorageStale)
    && (StorageFailed in reasons <==> served && storage.state == StorageUnavailable)
  }

  ghost predicate HistoryMeans(config: Config, storage: Storage, writer: Option<Reads>, observer: Option<Observer>,
                               out: HistoryReport) {
    && StatesMean(config, storage, writer, out.state)
    && ReasonsMean(config, storage, writer, out.reasons)
    && (out.coverage == CoveragePartial <==> Served(config, writer) && Loss(writer.value))
    && out.retained == (if Served(config, writer) then Retained(observer) else NotQueried)
  }

  function Retained(observer: Option<Observer>): RetainedData {
    match observer
    case Some(Observer(_, Answered(RetentionObserved))) => DataObserved
    case Some(Observer(_, Answered(RetentionFailed))) => DataUnavailable
    case Some(Observer(_, Answered(RetentionUnsupported))) => DataUnavailable
    case _ => NotQueried
  }

  /** SnapshotAvailability for a caller whose context stays live. */
  method SnapshotAvailability(config: Config, cluster: string, monitor: Option<Probe<Storage>>, writer: Option<Reads>,
                              observer: Option<Observer>) returns (out: Answer)
    ensures out == Rejected(ScopeError) <==> !ValidScope(cluster, config.federated)
    ensures out == Rejected(ScopeError) <==>
              || |cluster| >= 254 || (exists c | c in cluster :: c in {'/', ':', '\0'})
              || (if config.federated then cluster == "" else cluster != "")
    ensures out == Rejected(ConfigError) <==>
              && out != Rejected(ScopeError) && out != Rejected(StorageError)
              && (|| config.retention < 0
                  || (monitor.Some? && monitor.value.Answered?
                      && (!monitor.value.value.durabilityKnown || monitor.value.value.durable != config.durable))
                  || (Served(config, writer) && observer.Some? && observer.value.retention != config.retention))
    ensures out.Report? && monitor.None? ==> out.storage == Storage(StorageUnknown, true, config.durable)
    ensures out.Report? && monitor.Some? ==> monitor.value == Answered(out.storage)
    ensures out == Rejected(StorageError) <==>
              ValidScope(cluster, config.federated) && config.retention >= 0 && monitor == Some(Broken)
    ensures out == Rejected(RetentionError) <==>
              && ValidScope(cluster, config.federated) && Consistent(config, monitor) && Served(config, writer)
              && observer.Some? && observer.value.retention == config.retention && observer.value.answer.Broken?
    ensures out.Report? <==> ValidScope(cluster, config.federated) && Consistent(config, monitor)
                             && (Served(config, writer) ==> RetentionUsable(config, observer))
    ensures out.Report? ==>
              out.storage == Evidence(config, monitor)
                  && HistoryMeans(config, out.storage, writer, observer, out.history)
  {
    if |cluster| > 253 || '/' in cluster || ':' in cluster || '\0' in cluster
       || (config.federated && cluster == "") || (!config.federated && cluster != "") {
      return Rejected(ScopeError);
    }
    if config.retention < 0 { return Rejected(ConfigError); }
    var storage := Storage(StorageUnknown, true, config.durable);
    if monitor.Some? {
      if monitor.value.Broken? { return Rejected(StorageError); }
      storage := monitor.value.value;
      if !storage.durabilityKnown || storage.durable != config.durable { return Rejected(ConfigError); }
    }
    if config.historyEnabled && config.durable && !config.federated && writer.Some? {
      if observer.Some? && observer.value.retention != config.retention { return Rejected(ConfigError); }
      if observer.Some? && observer.value.answer.Broken? { return Rejected(RetentionError); }
      var served := ServedHistory(config, storage, writer, observer);
      return Report(storage, served);
    }
    var history := HistoryReport(Unknown, [], CoverageUnknown, NotQueried);
    if !config.historyEnabled {
      history := history.(state := Disabled, reasons := [NotConfigured]);
    } else if !config.durable {
      history := history.(state := Unsupported, reasons := [RequiresTier2]);
    } else if config.federated {
      history := history.(state := Unsupported, reasons := [ScopeUnknown]);
    } else {
      history := history.(reasons := [WriterMissing]);
    }
    return Report(storage, history);
  }

  /** The default case: what the writer shows, with the storage's and the observer's evidence. */
  method ServedHistory(config: Config, storage: Storage, writer: Option<Reads>, observer: Option<Observer>)
    returns (out: HistoryReport)
    requires Served(config, writer)
    ensures HistoryMeans(config, storage, writer, observer, out)
  {
    var seen := HistoryAvailability(writer.value);
    var reasons := StorageReasons(seen.reasons, storage.state);
    var state := seen.state;
    if storage.state == StorageUnavailable && state == Recording { state := Degraded; }
    out := HistoryReport(state, reasons, seen.coverage, Retained(observer));
    assert StatesMean(config, storage, writer, state);
  }

  method StorageReasons(reasons: seq<Reason>, state: StorageState) returns (r: seq<Reason>)
    requires Distinct(reasons) && forall x | x in reasons ::
               x !in {StorageUnknownReason, StorageStaleReason, StorageFailed}
    ensures Distinct(r)
    ensures forall x | x !in {StorageUnknownReason, StorageStaleReason, StorageFailed} :: x in r <==> x in reasons
    ensures StorageUnknownReason in r <==> state == StorageUnknown
    ensures StorageStaleReason in r <==> state == StorageStale
    ensures StorageFailed in r <==> state == StorageUnavailable
  {
    match state
    case StorageUnknown => r := Noted(reasons, true, StorageUnknownReason);
    case StorageStale => r := Noted(reasons, true, StorageStaleReason);
    case StorageUnavailable => r := Noted(reasons, true, StorageFailed);
    case StorageAvailable => r := reasons;
  }

  // ---------------------------------------------------------------------------------
  // Along a run of the writer

  /**
   * Every load of one call sees some state of the run, later loads seeing later states: s0 the lifecycle,
   * s1 and s2 the counters, s3 the depth, s4 the gauge, s5 the closed flag, s6 the context.
   */
  ghost predicate LoadedFrom(s0: State, between: seq<seq<Op>>, r: Reads) {
    && |between| == 6
    && var s1 := Run(s0, between[0]); var s2 := Run(s1, between[1]); var s3 := Run(s2, between[2]);
       var s4 := Run(s3, between[3]); var s5 := Run(s4, between[4]); var s6 := Run(s5, between[5]);
       r == Reads(s0.flags.started, s1.counts.failed, s2.counts.dropped, |s3.queue|, s4.counts.inFlight,
                  s5.flags.closed, s6.flags.cancelled)
  }

  ghost predicate Later(s: State, t: State) {
    && s.counts.processed <= t.counts.processed && s.counts.failed <= t.counts.failed
       && s.counts.dropped <= t.counts.dropped
    && (s.flags.started ==> t.flags.started) && (s.flags.closed ==> t.flags.closed)
       && (s.flags.cancelled ==> t.flags.cancelled)
  }

  lemma StepIsLater(s: State, op: Op)
    ensures Later(s, Apply(s, op))
  {
  }

  /** Counters only grow and lifecycle flags are never taken back. */
  lemma {:induction false} RunIsLater(s: State, ops: seq<Op>)
    ensures Later(s, Run(s, ops))
  {
    if ops != [] {
      RunIsLater(s, ops[..|ops| - 1]);
      RunLast(s, ops);
      StepIsLater(Run(s, ops[..|ops| - 1]), ops[|ops| - 1]);
    }
  }

  /** Once a loss was counted no later call reports recording, however its loads interleave with the writer. */
  lemma LossIsRemembered(s: State, ops: seq<Op>, between: seq<seq<Op>>, r: Reads)
    requires s.counts.dropped > 0 || s.counts.failed > 0
    requires LoadedFrom(Run(s, ops), between, r)
    ensures Loss(r)
  {
    RunIsLater(s, ops);
    var s0 := Run(s, ops);
    RunIsLater(s0, between[0]);
    RunIsLater(Run(s0, between[0]), between[1]);
  }

  /** A started writer, a Stop and a cancelled context are seen by every later call, however its loads interleave. */
  lemma LifecycleIsSeen(s: State, op: Op, ops: seq<Op>, between: seq<seq<Op>>, r: Reads)
    requires !s.flags.panicked && LoadedFrom(Run(Apply(s, op), ops), between, r)
    ensures op == Observe ==> r.started
    ensures op == MarkClosed ==> r.closed
    ensures op == Cancel ==> r.cancelled
  {
    var s0 := Run(Apply(s, op), ops);
    RunIsLater(Apply(s, op), ops);
    RunIsLater(s0, between[0]);
    var s1 := Run(s0, between[0]);
    RunIsLater(s1, between[1]);
    var s2 := Run(s1, between[1]);
    RunIsLater(s2, between[2]);
    var s3 := Run(s2, between[2]);
    RunIsLater(s3, between[3]);
    var s4 := Run(s3, between[3]);
    RunIsLater(s4, between[4]);
    RunIsLater(Run(s4, between[4]), between[5]);
  }

  /** The whole statement: after a counted loss the reader's method never answers recording again. */
  method ReadAfterLoss(ghost s: State, ghost ops: seq<Op>, ghost between: seq<seq<Op>>, config: Config, cluster: string,
                       monitor: Option<Probe<Storage>>, r: Reads, observer: Option<Observer>) returns (out: Answer)
    requires s.counts.dropped > 0 || s.counts.failed > 0
    requires LoadedFrom(Run(s, ops), between, r)
    ensures out.Report? ==> out.history.state != Recording
  {
    LossIsRemembered(s, ops, between, r);
    out := SnapshotAvailability(config, cluster, monitor, Some(r), observer);
  }
}
