/**
 * The asynchronous event writer of pkg/snapshot as interleaved steps: producers inside Enqueue,
 * workers draining the bounded channel, and Stop. Every receive, send and counter update is a
 * step of its own, so a run is any interleaving of them.
 */
module SnapshotWriter {

  import Runs

  const MAX_RETRIES: nat := 5

  datatype Event = Event(cluster: string, namespace: string, kind: string, name: string)

  /** Where one goroutine stands inside Enqueue. Phantom: the zero value received from a drained, closed channel. */
  datatype Producer =
    | Idle
    | Entered(event: Event)
    | Admitted(event: Event)
    | Full(event: Event)
    | Victim(event: Event, oldest: Event)
    | Phantom(event: Event)
    | Retry(event: Event)
    | Refused(event: Event)

  /** Where one goroutine stands inside worker. */
  datatype Worker =
    | Unstarted
    | Waiting
    | Taken(event: Event)
    | Writing(event: Event, attempt: nat)
    | Written(event: Event)
    | Lost(event: Event)
    | Finishing
    | Exited

  datatype Flags = Flags(started: bool, cancelled: bool, closed: bool, channelClosed: bool, panicked: bool)

  datatype Counts = Counts(inFlight: int, processed: nat, failed: nat, dropped: nat)

  /** What happened to the events, which the program itself only counts. */
  datatype History = History(offered: seq<Event>, processed: seq<Event>, failed: seq<Event>, dropped: seq<Event>,
                             phantoms: nat)

  datatype State = State(capacity: nat, queue: seq<Event>, producers: seq<Producer>, workers: seq<Worker>,
                         flags: Flags, counts: Counts, history: History)

  datatype Op =
    | Offer(p: nat, event: Event)
    | Produce(p: nat)
    | Observe
    | Spawn(w: nat)
    | Work(w: nat, stored: bool)
    | MarkClosed
    | CloseQueue
    | Cancel

  function Initial(capacity: nat, producers: nat, workers: nat): State {
    State(capacity, [], seq(producers, i => Idle), seq(workers, i => Unstarted),
          Flags(false, false, false, false, false), Counts(0, 0, 0, 0), History([], [], [], [], 0))
  }

  /** What one step inside Enqueue does: the queue it leaves, the events and zero values it counts as dropped. */
  datatype Produced = Produced(next: Producer, queue: seq<Event>, dropped: seq<Event>, phantoms: nat, panics: bool)

  /** A send: panics on a closed channel, else queues when there is room and otherwise falls to the default case. */
  function Send(e: Event, otherwise: Producer, queue: seq<Event>, capacity: nat, channelClosed: bool): Produced {
    if channelClosed then Produced(otherwise, queue, [], 0, true)
    else if |queue| < capacity then Produced(Idle, queue + [e], [], 0, false)
    else Produced(otherwise, queue, [], 0, false)
  }

  /** The next step of a goroutine inside Enqueue. */
  function ProducerStep(p: Producer, queue: seq<Event>, capacity: nat, closed: bool, channelClosed: bool): Produced {
    match p
    case Idle => Produced(p, queue, [], 0, false)
    case Entered(e) => Produced(if closed then Refused(e) else Admitted(e), queue, [], 0, false)
    case Admitted(e) => Send(e, Full(e), queue, capacity, channelClosed)
    case Full(e) =>
      if |queue| > 0 then Produced(Victim(e, queue[0]), queue[1..], [], 0, false)
      else Produced(if channelClosed then Phantom(e) else Retry(e), queue, [], 0, false)
    case Victim(e, oldest) => Produced(Retry(e), queue, [oldest], 0, false)
    case Phantom(e) => Produced(Retry(e), queue, [], 1, false)
    case Retry(e) => Send(e, Refused(e), queue, capacity, channelClosed)
    case Refused(e) => Produced(Idle, queue, [e], 0, false)
  }

  /** What one worker step does: the queue it leaves, the events it counts, the change of the in-flight gauge. */
  datatype Worked = Worked(next: Worker, queue: seq<Event>, processed: seq<Event>, failed: seq<Event>, started: int)

  /** The next step of a worker; `stored` is the answer of the sink to an attempt. */
  function WorkerStep(w: Worker, queue: seq<Event>, channelClosed: bool, stored: bool): Worked {
    match w
    case Unstarted => Worked(w, queue, [], [], 0)
    case Waiting =>
      if |queue| > 0 then Worked(Taken(queue[0]), queue[1..], [], [], 0)
      else Worked(if channelClosed then Exited else Waiting, queue, [], [], 0)
    case Taken(e) => Worked(Writing(e, 1), queue, [], [], 1)
    case Writing(e, n) =>
      Worked(if stored then Written(e) else if n == MAX_RETRIES then Lost(e) else Writing(e, n + 1), queue, [], [], 0)
    case Written(e) => Worked(Finishing, queue, [e], [], 0)
    case Lost(e) => Worked(Finishing, queue, [], [e], 0)
    case Finishing => Worked(Waiting, queue, [], [], -1)
    case Exited => Worked(w, queue, [], [], 0)
  }

  function AfterProducer(s: State, p: nat, d: Produced): State
    requires p < |s.producers|
  {
    State(s.capacity, d.queue, s.producers[p := d.next], s.workers, s.flags.(panicked := d.panics),
          s.counts.(dropped := s.counts.dropped + |d.dropped| + d.phantoms),
          s.history.(dropped := s.history.dropped + d.dropped, phantoms := s.history.phantoms + d.phantoms))
  }

  function AfterWorker(s: State, w: nat, d: Worked): State
    requires w < |s.workers|
  {
    State(s.capacity, d.queue, s.producers, s.workers[w := d.next], s.flags,
          Counts(s.counts.inFlight + d.started, s.counts.processed + |d.processed|,
                 s.counts.failed + |d.failed|, s.counts.dropped),
          s.history.(processed := s.history.processed + d.processed, failed := s.history.failed + d.failed))
  }

  function Offered(s: State, p: nat, e: Event): State
    requires p < |s.producers|
  {
    s.(producers := s.producers[p := Entered(e)], history := s.history.(offered := s.history.offered + [e]))
  }

  function Apply(s: State, op: Op): State {
    if s.flags.panicked then s
    else
      match op
      case Offer(p, e) => if p < |s.producers| && s.producers[p].Idle? then Offered(s, p, e) else s
      case Produce(p) =>
        if p < |s.producers|
        then AfterProducer(s, p, ProducerStep(s.producers[p], s.queue, s.capacity, s.flags.closed,
            s.flags.channelClosed))
        else s
      case Observe => s.(flags := s.flags.(started := true))
      case Spawn(w) => if w < |s.workers| && s.workers[w].Unstarted? then s.(workers := s.workers[w := Waiting]) else s
      case Work(w, stored) =>
        if w < |s.workers| then AfterWorker(s, w, WorkerStep(s.workers[w], s.queue, s.flags.channelClosed, stored))
            else s
      case MarkClosed => s.(flags := s.flags.(closed := true))
      case CloseQueue => if s.flags.closed then s.(flags := s.flags.(channelClosed := true)) else s
      case Cancel => s.(flags := s.flags.(cancelled := true))
  }

  function Run(s: State, ops: seq<Op>): State {
    Runs.Run(Apply, s, ops)
  }

  lemma RunLast(s: State, ops: seq<Op>)
    requires ops != []
    ensures Run(s, ops) == Apply(Run(s, ops[..|ops| - 1]), ops[|ops| - 1])
  {
    Runs.RunLast(Apply, s, ops);
  }

  lemma RunFirst(s: State, op: Op, ops: seq<Op>)
    ensures Run(s, [op] + ops) == Run(Apply(s, op), ops)
  {
    Runs.RunFirst(Apply, s, op, ops);
  }

  // ---------------------------------------------------------------------------------
  // Conservation

  function HeldByProducer(p: Producer): seq<Event> {
    if p.Idle? then [] else if p.Victim? then [p.event, p.oldest] else [p.event]
  }

  function HeldByWorker(w: Worker): seq<Event> {
    if w.Taken? || w.Writing? || w.Written? || w.Lost? then [w.event] else []
  }

  function Count(events: seq<Event>, x: Event): nat {
    if events == [] then 0 else Count(events[..|events| - 1], x) + if events[|events| - 1] == x then 1 else 0
  }

  function ProducersHold(ps: seq<Producer>, x: Event): nat {
    if ps == [] then 0 else Count(HeldByProducer(ps[0]), x) + ProducersHold(ps[1..], x)
  }

  function WorkersHold(ws: seq<Worker>, x: Event): nat {
    if ws == [] then 0 else Count(HeldByWorker(ws[0]), x) + WorkersHold(ws[1..], x)
  }

  /** Each offered event is in exactly one place. */
  ghost predicate Balanced(s: State, x: Event) {
    Count(s.history.offered, x)
    == Count(s.queue, x) + ProducersHold(s.producers, x) + WorkersHold(s.workers, x)
       + Count(s.history.processed, x) + Count(s.history.failed, x) + Count(s.history.dropped, x)
  }

  ghost predicate Conserved(s: State) {
    forall x: Event :: Balanced(s, x)
  }

  lemma {:induction false} ProducersHoldUpdate(ps: seq<Producer>, p: nat, next: Producer, x: Event)
    requires p < |ps|
    ensures ProducersHold(ps[p := next], x) + Count(HeldByProducer(ps[p]), x)
              == ProducersHold(ps, x) + Count(HeldByProducer(next), x)
  {
    if p == 0 {
      assert ps[0 := next][1..] == ps[1..];
    } else {
      assert ps[p := next][1..] == ps[1..][p - 1 := next];
      ProducersHoldUpdate(ps[1..], p - 1, next, x);
    }
  }

  lemma {:induction false} WorkersHoldUpdate(ws: seq<Worker>, w: nat, next: Worker, x: Event)
    requires w < |ws|
    ensures WorkersHold(ws[w := next], x) + Count(HeldByWorker(ws[w]), x)
              == WorkersHold(ws, x) + Count(HeldByWorker(next), x)
  {
    if w == 0 {
      assert ws[0 := next][1..] == ws[1..];
    } else {
      assert ws[w := next][1..] == ws[1..][w - 1 := next];
      WorkersHoldUpdate(ws[1..], w - 1, next, x);
    }
  }

  lemma {:induction false} CountAppend(a: seq<Event>, b: seq<Event>, x: Event)
    ensures Count(a + b, x) == Count(a, x) + Count(b, x)
    decreases |b|
  {
    if b == [] {
      assert a + b == a;
    } else {
      var n := |b| - 1;
      assert (a + b)[..|a| + n] == a + b[..n];
      CountAppend(a, b[..n], x);
    }
  }

  lemma CountOne(e: Event, x: Event)
    ensures Count([e], x) == if e == x then 1 else 0
  {
    assert [e][..0] == [];
  }

  lemma CountFirst(q: seq<Event>, x: Event)
    requires |q| > 0
    ensures Count(q, x) == Count([q[0]], x) + Count(q[1..], x)
  {
    assert q == [q[0]] + q[1..];
    CountAppend([q[0]], q[1..], x);
  }

  lemma CountTwo(a: Event, b: Event, x: Event)
    ensures Count([a, b], x) == Count([a], x) + Count([b], x)
  {
    assert [a, b] == [a] + [b];
    CountAppend([a], [b], x);
  }

  lemma SendMoves(e: Event, otherwise: Producer, queue: seq<Event>, capacity: nat, channelClosed: bool, x: Event)
    requires HeldByProducer(otherwise) == [e]
    ensures var d := Send(e, otherwise, queue, capacity, channelClosed);
            d.dropped == [] && Count(queue, x) + Count([e], x) == Count(d.queue, x) + Count(HeldByProducer(d.next), x)
  {
    CountAppend(queue, [e], x);
  }

  /** A step inside Enqueue loses nothing and invents nothing. */
  lemma ProducerMoves(p: Producer, queue: seq<Event>, capacity: nat, closed: bool, channelClosed: bool, x: Event)
    ensures var d := ProducerStep(p, queue, capacity, closed, channelClosed);
            Count(queue, x) + Count(HeldByProducer(p), x)
                == Count(d.queue, x) + Count(HeldByProducer(d.next), x) + Count(d.dropped, x)
  {
    match p
    case Admitted(e) => SendMoves(e, Full(e), queue, capacity, channelClosed, x);
    case Retry(e) => SendMoves(e, Refused(e), queue, capacity, channelClosed, x);
    case Full(e) =>
      if |queue| > 0 {
        CountFirst(queue, x);
        CountTwo(e, queue[0], x);
      }
    case Victim(e, oldest) => CountTwo(e, oldest, x);
    case _ =>
  }

  lemma WorkerMoves(w: Worker, queue: seq<Event>, channelClosed: bool, stored: bool, x: Event)
    ensures var d := WorkerStep(w, queue, channelClosed, stored);
            Count(queue, x) + Count(HeldByWorker(w), x)
            == Count(d.queue, x) + Count(HeldByWorker(d.next), x) + Count(d.processed, x) + Count(d.failed, x)
  {
    if w.Waiting? && |queue| > 0 { CountFirst(queue, x); }
  }

  lemma ProducerBalanced(s: State, p: nat, d: Produced, x: Event)
    requires p < |s.producers| && Balanced(s, x)
    requires Count(s.queue, x) + Count(HeldByProducer(s.producers[p]), x)
             == Count(d.queue, x) + Count(HeldByProducer(d.next), x) + Count(d.dropped, x)
    ensures Balanced(AfterProducer(s, p, d), x)
  {
    ProducersHoldUpdate(s.producers, p, d.next, x);
    CountAppend(s.history.dropped, d.dropped, x);
  }

  lemma WorkerBalanced(s: State, w: nat, d: Worked, x: Event)
    requires w < |s.workers| && Balanced(s, x)
    requires Count(s.queue, x) + Count(HeldByWorker(s.workers[w]), x)
             == Count(d.queue, x) + Count(HeldByWorker(d.next), x) + Count(d.processed, x) + Count(d.failed, x)
    ensures Balanced(AfterWorker(s, w, d), x)
  {
    WorkersHoldUpdate(s.workers, w, d.next, x);
    CountAppend(s.history.processed, d.processed, x);
    CountAppend(s.history.failed, d.failed, x);
  }

  lemma OfferBalanced(s: State, p: nat, e: Event, x: Event)
    requires p < |s.producers| && s.producers[p].Idle? && Balanced(s, x)
    ensures Balanced(Offered(s, p, e), x)
  {
    ProducersHoldUpdate(s.producers, p, Entered(e), x);
    CountAppend(s.history.offered, [e], x);
  }

  lemma StepBalanced(s: State, op: Op, x: Event)
    requires Balanced(s, x)
    ensures Balanced(Apply(s, op), x)
  {
    match op
    case Produce(p) =>
      if p < |s.producers| {
        ProducerMoves(s.producers[p], s.queue, s.capacity, s.flags.closed, s.flags.channelClosed, x);
        ProducerBalanced(s, p, ProducerStep(s.producers[p], s.queue, s.capacity, s.flags.closed,
            s.flags.channelClosed), x);
      }
    case Work(w, stored) =>
      if w < |s.workers| {
        WorkerMoves(s.workers[w], s.queue, s.flags.channelClosed, stored, x);
        WorkerBalanced(s, w, WorkerStep(s.workers[w], s.queue, s.flags.channelClosed, stored), x);
      }
    case Offer(p, e) => if p < |s.producers| && s.producers[p].Idle? { OfferBalanced(s, p, e, x); }
    case Spawn(w) => if w < |s.workers| { WorkersHoldUpdate(s.workers, w, Waiting, x); }
    case _ =>
  }

  lemma {:induction false} NothingHeld(producers: nat, workers: nat, x: Event)
    ensures ProducersHold(seq(producers, i => Idle), x) == 0 && WorkersHold(seq(workers, i => Unstarted), x) == 0
  {
    if producers > 0 {
      NothingHeld(producers - 1, workers, x);
      assert seq(producers, i => Idle)[1..] == seq(producers - 1, i => Idle);
    } else if workers > 0 {
      NothingHeld(producers, workers - 1, x);
      assert seq(workers, i => Unstarted)[1..] == seq(workers - 1, i => Unstarted);
    }
  }

  /** On every interleaving each offered event is exactly one of queued, held, processed, failed or dropped. */
  lemma {:induction false} RunConserves(capacity: nat, producers: nat, workers: nat, ops: seq<Op>)
    ensures Conserved(Run(Initial(capacity, producers, workers), ops))
  {
    var start := Initial(capacity, producers, workers);
    if ops == [] {
      forall x: Event ensures Balanced(start, x) { NothingHeld(producers, workers, x); }
    } else {
      RunConserves(capacity, producers, workers, ops[..|ops| - 1]);
      var before := Run(start, ops[..|ops| - 1]);
      var after := Apply(before, ops[|ops| - 1]);
      RunLast(start, ops);
      forall x: Event ensures Balanced(after, x) { StepBalanced(before, ops[|ops| - 1], x); }
    }
  }

  // ---------------------------------------------------------------------------------
  // Counters, bounds and the end of the drain

  function Load(w: Worker): nat {
    if w.Writing? || w.Written? || w.Lost? || w.Finishing? then 1 else 0
  }

  function Busy(ws: seq<Worker>): nat {
    if ws == [] then 0 else Load(ws[0]) + Busy(ws[1..])
  }

  lemma {:induction false} BusyUpdate(ws: seq<Worker>, w: nat, next: Worker)
    requires w < |ws|
    ensures Busy(ws[w := next]) + Load(ws[w]) == Busy(ws) + Load(next)
  {
    if w == 0 {
      assert ws[0 := next][1..] == ws[1..];
    } else {
      assert ws[w := next][1..] == ws[1..][w - 1 := next];
      BusyUpdate(ws[1..], w - 1, next);
    }
  }

  ghost predicate Counted(s: State) {
    && s.counts.processed == |s.history.processed| && s.counts.failed == |s.history.failed|
    && s.counts.dropped == |s.history.dropped| + s.history.phantoms
    && s.counts.inFlight == Busy(s.workers)
    && |s.queue| <= s.capacity
  }

  ghost predicate Drained(s: State) {
    && (s.flags.channelClosed ==> s.flags.closed)
    && (forall w | 0 <= w < |s.workers| :: s.workers[w].Exited? ==> s.flags.channelClosed && s.queue == [])
  }

  lemma WorkCounted(s: State, w: nat, stored: bool)
    requires Counted(s)
    ensures Counted(Apply(s, Work(w, stored)))
  {
    if w < |s.workers| {
      BusyUpdate(s.workers, w, WorkerStep(s.workers[w], s.queue, s.flags.channelClosed, stored).next);
    }
  }

  lemma StepCounted(s: State, op: Op)
    requires Counted(s)
    ensures Counted(Apply(s, op))
  {
    match op
    case Work(w, stored) => WorkCounted(s, w, stored);
    case Spawn(w) => if w < |s.workers| { BusyUpdate(s.workers, w, Waiting); }
    case _ =>
  }

  lemma StepDrained(s: State, op: Op)
    requires Drained(s)
    ensures Drained(Apply(s, op))
  {
  }

  lemma {:induction false} NobodyBusy(workers: nat)
    ensures Busy(seq(workers, i => Unstarted)) == 0
  {
    if workers > 0 {
      NobodyBusy(workers - 1);
      assert seq(workers, i => Unstarted)[1..] == seq(workers - 1, i => Unstarted);
    }
  }

  /** In every reachable state the counters agree with what happened, and a worker has left only a closed,
      empty queue. */
  lemma {:induction false} RunCounts(capacity: nat, producers: nat, workers: nat, ops: seq<Op>)
    ensures Counted(Run(Initial(capacity, producers, workers), ops))
              && Drained(Run(Initial(capacity, producers, workers), ops))
  {
    var start := Initial(capacity, producers, workers);
    if ops == [] {
      NobodyBusy(workers);
    } else {
      RunCounts(capacity, producers, workers, ops[..|ops| - 1]);
      RunLast(start, ops);
      StepCounted(Run(start, ops[..|ops| - 1]), ops[|ops| - 1]);
      StepDrained(Run(start, ops[..|ops| - 1]), ops[|ops| - 1]);
    }
  }

  /** Stop has returned after at least one worker was started, and no Enqueue is under way. */
  ghost predicate Settled(s: State) {
    && s.flags.channelClosed
    && (exists w | 0 <= w < |s.workers| :: s.workers[w].Exited?)
    && (forall w | 0 <= w < |s.workers| :: s.workers[w].Exited? || s.workers[w].Unstarted?)
    && (forall p | 0 <= p < |s.producers| :: s.producers[p].Idle?)
  }

  lemma {:induction false} IdleHoldsNothing(ps: seq<Producer>, x: Event)
    requires forall p | 0 <= p < |ps| :: ps[p].Idle?
    ensures ProducersHold(ps, x) == 0
  {
    if ps != [] { IdleHoldsNothing(ps[1..], x); }
  }

  lemma {:induction false} ExitedHoldNothing(ws: seq<Worker>, x: Event)
    requires forall w | 0 <= w < |ws| :: ws[w].Exited? || ws[w].Unstarted?
    ensures WorkersHold(ws, x) == 0
  {
    if ws != [] { ExitedHoldNothing(ws[1..], x); }
  }

  lemma {:induction false} CountIsMultiplicity(events: seq<Event>, x: Event)
    ensures Count(events, x) == multiset(events)[x]
  {
    if events != [] {
      var n := |events| - 1;
      assert events == events[..n] + [events[n]];
      CountIsMultiplicity(events[..n], x);
    }
  }

  lemma SameCountsSameLength(a: seq<Event>, b: seq<Event>)
    requires forall x: Event :: Count(a, x) == Count(b, x)
    ensures |a| == |b| && multiset(a) == multiset(b)
  {
    forall x: Event ensures multiset(a)[x] == multiset(b)[x] {
      CountIsMultiplicity(a, x);
      CountIsMultiplicity(b, x);
    }
    assert multiset(a) == multiset(b);
    assert |multiset(a)| == |a| && |multiset(b)| == |b|;
  }

  /** After Stop with quiet producers every event was processed, failed or dropped, and the counters add up. */
  lemma SettledTotals(capacity: nat, producers: nat, workers: nat, ops: seq<Op>)
    requires Settled(Run(Initial(capacity, producers, workers), ops))
    ensures var s := Run(Initial(capacity, producers, workers), ops);
            && multiset(s.history.offered) == multiset(s.history.processed + s.history.failed + s.history.dropped)
            && |s.history.offered| + s.history.phantoms == s.counts.processed + s.counts.failed + s.counts.dropped
  {
    var s := Run(Initial(capacity, producers, workers), ops);
    RunConserves(capacity, producers, workers, ops);
    RunCounts(capacity, producers, workers, ops);
    var h := s.history;
    forall x: Event ensures Count(h.offered, x) == Count(h.processed + h.failed + h.dropped, x) {
      assert Balanced(s, x);
      IdleHoldsNothing(s.producers, x);
      ExitedHoldNothing(s.workers, x);
      CountAppend(h.processed + h.failed, h.dropped, x);
      CountAppend(h.processed, h.failed, x);
    }
    SameCountsSameLength(h.offered, h.processed + h.failed + h.dropped);
  }

  // ---------------------------------------------------------------------------------
  // Enqueue and a concurrent Stop

  /** Past the closed check and not yet returned. */
  predicate Underway(p: Producer) {
    p.Admitted? || p.Full? || p.Victim? || p.Phantom? || p.Retry?
  }

  ghost predicate Quiet(s: State) {
    forall p | 0 <= p < |s.producers| :: !Underway(s.producers[p])
  }

  /** The queue is only ever closed while no Enqueue is between its check and its return. */
  ghost predicate ClosedQuietly(s: State, ops: seq<Op>)
    decreases |ops|
  {
    ops == [] ||
    (ClosedQuietly(s, ops[..|ops| - 1]) && (ops[|ops| - 1].CloseQueue? ==> Quiet(Run(s, ops[..|ops| - 1]))))
  }

  ghost predicate Safe(s: State) {
    && !s.flags.panicked && s.history.phantoms == 0
    && (s.flags.channelClosed ==> s.flags.closed && Quiet(s))
    && (forall p | 0 <= p < |s.producers| :: !s.producers[p].Phantom?)
  }

  lemma ProducerSafe(s: State, p: nat)
    requires Safe(s) && p < |s.producers|
    ensures Safe(Apply(s, Produce(p)))
  {
    var d := ProducerStep(s.producers[p], s.queue, s.capacity, s.flags.closed, s.flags.channelClosed);
    assert !d.panics && d.phantoms == 0 && !d.next.Phantom?;
    assert s.flags.channelClosed ==> !Underway(d.next);
  }

  lemma StepSafe(s: State, op: Op)
    requires Safe(s) && (op.CloseQueue? ==> Quiet(s))
    ensures Safe(Apply(s, op))
  {
    if op.Produce? {
      if op.p < |s.producers| { ProducerSafe(s, op.p); }
    } else {
      assert Apply(s, op).history.phantoms == s.history.phantoms;
      assert !Apply(s, op).flags.panicked;
    }
  }

  /** With quiet closes no run panics, and no drop is counted for an event that never was. */
  lemma {:induction false} QuietCloseIsSafe(s: State, ops: seq<Op>)
    requires Safe(s) && ClosedQuietly(s, ops)
    ensures Safe(Run(s, ops))
    decreases |ops|
  {
    if ops != [] {
      QuietCloseIsSafe(s, ops[..|ops| - 1]);
      RunLast(s, ops);
      StepSafe(Run(s, ops[..|ops| - 1]), ops[|ops| - 1]);
    }
  }

  /** The counters balance exactly on every run whose close was quiet. */
  lemma QuietTotals(capacity: nat, producers: nat, workers: nat, ops: seq<Op>)
    requires ClosedQuietly(Initial(capacity, producers, workers), ops)
    requires Settled(Run(Initial(capacity, producers, workers), ops))
    ensures var s := Run(Initial(capacity, producers, workers), ops);
            |s.history.offered| == s.counts.processed + s.counts.failed + s.counts.dropped
  {
    QuietCloseIsSafe(Initial(capacity, producers, workers), ops);
    SettledTotals(capacity, producers, workers, ops);
  }

  /** The most steps a goroutine inside Enqueue still takes before it returns. */
  function Remaining(p: Producer): nat {
    match p
    case Idle => 0
    case Refused(_) => 1
    case Retry(_) => 2
    case Victim(_, _) => 3
    case Phantom(_) => 3
    case Full(_) => 4
    case Admitted(_) => 5
    case Entered(_) => 6
  }

  /** Enqueue never waits: each of its steps brings it nearer to its return, whatever the queue and the store do. */
  lemma EnqueueNeverWaits(s: State, p: nat)
    requires p < |s.producers| && !s.flags.panicked && !s.producers[p].Idle?
    ensures var t := Apply(s, Produce(p));
            |t.producers| == |s.producers| && Remaining(t.producers[p]) < Remaining(s.producers[p])
  {
    var d := ProducerStep(s.producers[p], s.queue, s.capacity, s.flags.closed, s.flags.channelClosed);
    assert Remaining(d.next) < Remaining(s.producers[p]);
  }

  /** No other goroutine can make it wait either. */
  lemma OthersDoNotDelay(s: State, p: nat, op: Op)
    requires p < |s.producers| && op != Produce(p) && !s.producers[p].Idle?
    ensures |Apply(s, op).producers| == |s.producers| && Apply(s, op).producers[p] == s.producers[p]
  {
  }

  lemma OvertakenStep(s: State, p: nat)
    requires !s.flags.panicked && s.flags.channelClosed && p < |s.producers| && Underway(s.producers[p])
    ensures var t := Apply(s, Produce(p));
            |t.producers| == |s.producers| && t.flags.channelClosed
            && (t.flags.panicked || (Underway(t.producers[p]) && Remaining(t.producers[p]) < Remaining(s.producers[p])))
  {
  }

  /** An Enqueue overtaken by the close of the queue panics when it runs on. */
  lemma {:induction false} OvertakenPanics(s: State, p: nat) returns (ops: seq<Op>)
    requires !s.flags.panicked && s.flags.channelClosed && p < |s.producers| && Underway(s.producers[p])
    ensures Run(s, ops).flags.panicked && forall op | op in ops :: op == Produce(p)
    decreases Remaining(s.producers[p])
  {
    var t := Apply(s, Produce(p));
    OvertakenStep(s, p);
    if t.flags.panicked {
      ops := [Produce(p)];
      assert ops == [Produce(p)] + [];
      RunFirst(s, Produce(p), []);
    } else {
      var rest := OvertakenPanics(t, p);
      ops := [Produce(p)] + rest;
      RunFirst(s, Produce(p), rest);
    }
  }

  lemma {:induction false} StayQuiet(s: State, ops: seq<Op>)
    requires Safe(s) && s.flags.channelClosed
    ensures ClosedQuietly(s, ops) && Safe(Run(s, ops)) && Run(s, ops).flags.channelClosed
    decreases |ops|
  {
    if ops != [] {
      StayQuiet(s, ops[..|ops| - 1]);
      RunLast(s, ops);
      StepSafe(Run(s, ops[..|ops| - 1]), ops[|ops| - 1]);
    }
  }

  /** Closing the queue is safe exactly when no Enqueue is between its check and its return. */
  lemma CloseIsSafeExactlyWhenQuiet(s: State)
    requires Safe(s) && s.flags.closed && !s.flags.channelClosed
    ensures Quiet(s) <==> forall ops :: !Run(Apply(s, CloseQueue), ops).flags.panicked
  {
    var t := Apply(s, CloseQueue);
    if Quiet(s) {
      StepSafe(s, CloseQueue);
      forall ops ensures !Run(t, ops).flags.panicked {
        StayQuiet(t, ops);
      }
    } else {
      var p :| 0 <= p < |s.producers| && Underway(s.producers[p]);
      assert t.producers == s.producers;
      var ops := OvertakenPanics(t, p);
    }
  }

  /** One Enqueue overtaken by Stop: the program panics. */
  lemma LateEnqueuePanics(e: Event)
    ensures Run(Initial(1, 1, 1), [Offer(0, e), Produce(0), MarkClosed, CloseQueue, Produce(0)]).flags.panicked
  {
    var s := Initial(1, 1, 1);
    var s1 := Apply(s, Offer(0, e));
    var s2 := Apply(s1, Produce(0));
    var s3 := Apply(s2, MarkClosed);
    var s4 := Apply(s3, CloseQueue);
    var all := [Offer(0, e), Produce(0), MarkClosed, CloseQueue, Produce(0)];
    RunLast(s, all);
    assert all[..4] == [Offer(0, e), Produce(0), MarkClosed, CloseQueue];
    RunLast(s, all[..4]);
    assert all[..4][..3] == all[..3] == [Offer(0, e), Produce(0), MarkClosed];
    RunLast(s, all[..3]);
    assert all[..3][..2] == all[..2] == [Offer(0, e), Produce(0)];
    RunLast(s, all[..2]);
    assert all[..2][..1] == all[..1] == [Offer(0, e)];
    RunLast(s, all[..1]);
    assert all[..1][..0] == [];
    assert s1.producers == [Entered(e)];
    assert s2.producers == [Admitted(e)] && s4.flags.channelClosed;
  }

  // ---------------------------------------------------------------------------------
  // One producer

  function InHand(p: Producer): seq<Event> {
    if p.Idle? then [] else [p.event]
  }

  predicate Suffix(tail: seq<Event>, all: seq<Event>) {
    |tail| <= |all| && all[|all| - |tail|..] == tail
  }

  lemma SuffixShorter(tail: seq<Event>, all: seq<Event>)
    requires Suffix(tail, all) && |tail| > 0
    ensures Suffix(tail[1..], all)
  {
    assert all[|all| - |tail|..][1..] == all[|all| - |tail[1..]|..];
  }

  lemma SuffixLonger(tail: seq<Event>, all: seq<Event>, e: Event)
    requires Suffix(tail, all)
    ensures Suffix(tail + [e], all + [e])
  {
    assert (all + [e])[|all| - |tail|..] == all[|all| - |tail|..] + [e];
  }

  /** A producer that is alone always finds room for its second send, as nobody else can refill the queue. */
  predicate Alone(p: Producer, queue: seq<Event>, capacity: nat) {
    !p.Refused? && !p.Phantom? && |queue| <= capacity && (p.Victim? || p.Retry? ==> |queue| < capacity)
  }

  /** What is still queued or in hand is the newest part of what was offered. */
  ghost predicate Newest(s: State) {
    && |s.producers| == 1 && 0 < s.capacity
    && (!s.flags.closed ==>
          && !s.flags.panicked && !s.flags.channelClosed
          && Alone(s.producers[0], s.queue, s.capacity)
          && Suffix(s.queue + InHand(s.producers[0]), s.history.offered))
  }

  lemma ProducerNewest(p: Producer, queue: seq<Event>, capacity: nat, all: seq<Event>)
    requires 0 < capacity && Alone(p, queue, capacity) && Suffix(queue + InHand(p), all)
    ensures var d := ProducerStep(p, queue, capacity, false, false);
            !d.panics && Alone(d.next, d.queue, capacity) && Suffix(d.queue + InHand(d.next), all)
  {
    var d := ProducerStep(p, queue, capacity, false, false);
    if p.Full? && |queue| > 0 {
      SuffixShorter(queue + InHand(p), all);
      assert (queue + [p.event])[1..] == queue[1..] + [p.event];
    } else {
      assert d.queue + InHand(d.next) == queue + InHand(p);
    }
  }

  lemma WorkerNewest(w: Worker, p: Producer, queue: seq<Event>, capacity: nat, stored: bool, all: seq<Event>)
    requires Alone(p, queue, capacity) && Suffix(queue + InHand(p), all)
    ensures var d := WorkerStep(w, queue, false, stored);
            Alone(p, d.queue, capacity) && Suffix(d.queue + InHand(p), all)
  {
    if w.Waiting? && |queue| > 0 {
      SuffixShorter(queue + InHand(p), all);
      assert (queue + InHand(p))[1..] == queue[1..] + InHand(p);
    }
  }

  lemma StepNewest(s: State, op: Op)
    requires Newest(s)
    ensures Newest(Apply(s, op))
  {
    if !s.flags.closed {
      match op
      case Produce(p) => if p == 0 { ProducerNewest(s.producers[0], s.queue, s.capacity, s.history.offered); }
      case Work(w, stored) =>
        if w < |s.workers| {
          WorkerNewest(s.workers[w], s.producers[0], s.queue, s.capacity, stored, s.history.offered);
        }
      case Offer(p, e) =>
        if s.producers[0].Idle? {
          assert s.queue + InHand(s.producers[0]) == s.queue;
          SuffixLonger(s.queue, s.history.offered, e);
        }
      case _ =>
    }
  }

  lemma {:induction false} RunNewest(capacity: nat, workers: nat, ops: seq<Op>)
    requires 0 < capacity
    ensures Newest(Run(Initial(capacity, 1, workers), ops))
  {
    if ops != [] {
      RunNewest(capacity, workers, ops[..|ops| - 1]);
      RunLast(Initial(capacity, 1, workers), ops);
      StepNewest(Run(Initial(capacity, 1, workers), ops[..|ops| - 1]), ops[|ops| - 1]);
    }
  }

  /** Events that left the queue: at the workers, accounted for, or taken out as the oldest and about to be counted. */
  function Gone(s: State, x: Event): nat {
    WorkersHold(s.workers, x) + Count(s.history.processed, x) + Count(s.history.failed, x) + Count(s.history.dropped, x)
    + if |s.producers| == 1 && s.producers[0].Victim? && s.producers[0].oldest == x then 1 else 0
  }

  lemma GoneIsOlder(s: State, older: seq<Event>, x: Event)
    requires |s.producers| == 1 && Balanced(s, x)
    requires s.history.offered == older + (s.queue + InHand(s.producers[0]))
    ensures Count(older, x) == Gone(s, x)
  {
    var p := s.producers[0];
    CountAppend(older, s.queue + InHand(p), x);
    CountAppend(s.queue, InHand(p), x);
    assert ProducersHold(s.producers[1..], x) == 0;
    if p.Victim? {
      assert HeldByProducer(p) == [p.event] + [p.oldest];
      CountAppend([p.event], [p.oldest], x);
      CountOne(p.oldest, x);
    }
  }

  /**
   * With one producer, and until Stop, the offered events split into an older part, which was dropped or went to
   * the workers, and a newer part, which is queued or in hand: only the oldest are ever dropped.
   */
  lemma OneProducerDropsTheOldest(capacity: nat, workers: nat, ops: seq<Op>) returns (older: seq<Event>)
    requires 0 < capacity && !Run(Initial(capacity, 1, workers), ops).flags.closed
    ensures var s := Run(Initial(capacity, 1, workers), ops);
            && |s.producers| == 1 && s.history.offered == older + (s.queue + InHand(s.producers[0]))
            && forall x: Event :: Count(older, x) == Gone(s, x)
  {
    var s := Run(Initial(capacity, 1, workers), ops);
    RunNewest(capacity, workers, ops);
    RunConserves(capacity, 1, workers, ops);
    var tail := s.queue + InHand(s.producers[0]);
    older := s.history.offered[..|s.history.offered| - |tail|];
    assert s.history.offered == older + tail;
    forall x: Event ensures Count(older, x) == Gone(s, x) {
      assert Balanced(s, x);
      GoneIsOlder(s, older, x);
    }
  }

  // ---------------------------------------------------------------------------------
  // The retry loop

  /** The doubling sleep, in milliseconds, after failed attempt n + 1. */
  function Backoff(n: nat): nat {
    if n == 0 then 50 else 2 * Backoff(n - 1)
  }

  /** writeWithRetry: `stored(n)` is the sink's answer to attempt n. */
  method WriteWithRetry(stored: nat -> bool) returns (ok: bool, attempts: nat, sleeps: seq<nat>)
    ensures 1 <= attempts <= MAX_RETRIES
    ensures forall n | 1 <= n < attempts :: !stored(n)
    ensures ok <==> stored(attempts)
    ensures !ok ==> attempts == MAX_RETRIES
    ensures |sleeps| == attempts - 1 && forall n | 0 <= n < |sleeps| :: sleeps[n] == Backoff(n)
  {
    var delay := 50;
    attempts, sleeps := 1, [];
    while true
      invariant 1 <= attempts <= MAX_RETRIES
      invariant forall n | 1 <= n < attempts :: !stored(n)
      invariant delay == Backoff(attempts - 1)
      invariant |sleeps| == attempts - 1 && forall n | 0 <= n < |sleeps| :: sleeps[n] == Backoff(n)
      decreases MAX_RETRIES - attempts
    {
      if stored(attempts) { return true, attempts, sleeps; }
      if attempts == MAX_RETRIES { return false, attempts, sleeps; }
      sleeps := sleeps + [delay];
      delay := delay * 2;
      attempts := attempts + 1;
    }
  }

  function Answers(w: nat, stored: nat -> bool, from: nat, n: nat): seq<Op>
    decreases n
  {
    if n == 0 then [] else [Work(w, stored(from))] + Answers(w, stored, from + 1, n - 1)
  }

  function WithWorker(s: State, w: nat, next: Worker): State
    requires w < |s.workers|
  {
    s.(workers := s.workers[w := next])
  }

  lemma AttemptStep(s: State, w: nat, stored: bool)
    requires !s.flags.panicked && w < |s.workers| && s.workers[w].Writing?
    ensures Apply(s, Work(w, stored)) == WithWorker(s, w,
              WorkerStep(s.workers[w], s.queue, s.flags.channelClosed, stored).next)
  {
    var t := Apply(s, Work(w, stored));
    assert t.history == s.history && t.counts == s.counts;
  }

  lemma FailedAttempt(s: State, w: nat, e: Event, n: nat)
    requires !s.flags.panicked && w < |s.workers| && s.workers[w] == Writing(e, n) && n < MAX_RETRIES
    ensures Apply(s, Work(w, false)) == WithWorker(s, w, Writing(e, n + 1))
  {
    AttemptStep(s, w, false);
  }

  lemma LastAttempt(s: State, w: nat, e: Event, n: nat, stored: bool)
    requires !s.flags.panicked && w < |s.workers| && s.workers[w] == Writing(e, n) && (stored || n == MAX_RETRIES)
    ensures Apply(s, Work(w, stored)) == WithWorker(s, w, if stored then Written(e) else Lost(e))
  {
    AttemptStep(s, w, stored);
  }

  lemma WithWorkerTwice(s: State, w: nat, first: Worker, second: Worker)
    requires w < |s.workers|
    ensures WithWorker(WithWorker(s, w, first), w, second) == WithWorker(s, w, second)
  {
    assert s.workers[w := first][w := second] == s.workers[w := second];
  }

  /** The attempt steps of a worker end where the retry loop ends. */
  lemma {:induction false} WorkerFollowsTheLoop(s: State, w: nat, e: Event, n: nat, stored: nat -> bool, attempts: nat)
    requires !s.flags.panicked && w < |s.workers| && s.workers[w] == Writing(e, n) && 1 <= n <= attempts <= MAX_RETRIES
    requires forall k | n <= k < attempts :: !stored(k)
    requires stored(attempts) || attempts == MAX_RETRIES
    ensures Run(s, Answers(w, stored, n, attempts + 1 - n))
              == WithWorker(s, w, if stored(attempts) then Written(e) else Lost(e))
    decreases attempts - n
  {
    var rest := Answers(w, stored, n + 1, attempts - n);
    RunFirst(s, Work(w, stored(n)), rest);
    if n < attempts {
      FailedAttempt(s, w, e, n);
      WorkerFollowsTheLoop(WithWorker(s, w, Writing(e, n + 1)), w, e, n + 1, stored, attempts);
      WithWorkerTwice(s, w, Writing(e, n + 1), if stored(attempts) then Written(e) else Lost(e));
    } else {
      LastAttempt(s, w, e, n, stored(n));
    }
  }
}
