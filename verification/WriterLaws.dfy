/** What the history writer does with an event: it drops none while there is room, workers take the oldest,
    and exactly the events the sink stored count as processed. */
module WriterLaws {
  import Runs
  import opened SnapshotWriter

  // ---------------------------------------------------------------------------------
  // Room

  /** The goroutines inside Enqueue. */
  function Inside(ps: seq<Producer>): nat {
    if ps == [] then 0 else (if ps[0].Idle? then 0 else 1) + Inside(ps[1..])
  }

  lemma {:induction false} InsideUpdate(ps: seq<Producer>, p: nat, next: Producer)
    requires p < |ps|
    ensures Inside(ps[p := next]) + (if ps[p].Idle? then 0 else 1) == Inside(ps) + if next.Idle? then 0 else 1
  {
    if p == 0 {
      assert ps[0 := next][1..] == ps[1..];
    } else {
      assert ps[p := next][1..] == ps[1..][p - 1 := next];
      InsideUpdate(ps[1..], p - 1, next);
    }
  }

  /** Nobody found the queue full, and the queue has room for everyone inside. */
  ghost predicate Roomy(s: State) {
    && (forall p | 0 <= p < |s.producers| ::
          s.producers[p].Idle? || s.producers[p].Entered? || s.producers[p].Admitted?)
    && |s.queue| + Inside(s.producers) <= |s.history.offered|
    && s.history.dropped == [] && s.counts.dropped == 0 && s.history.phantoms == 0
    && !s.flags.panicked && !s.flags.channelClosed
  }

  /** Stop has not begun, and no more events were offered than the queue can hold. */
  predicate Few(s: State) {
    !s.flags.closed && |s.history.offered| <= s.capacity
  }

  lemma OfferRoomy(s: State, p: nat, e: Event)
    requires Roomy(s)
    ensures Roomy(Apply(s, Offer(p, e)))
  {
    if p < |s.producers| { InsideUpdate(s.producers, p, Entered(e)); }
  }

  lemma ProduceRoomy(s: State, p: nat)
    requires Roomy(s) && Few(s)
    ensures Roomy(Apply(s, Produce(p)))
  {
    if p < |s.producers| {
      var d := ProducerStep(s.producers[p], s.queue, s.capacity, s.flags.closed, s.flags.channelClosed);
      InsideUpdate(s.producers, p, d.next);
      if s.producers[p].Admitted? { OneInside(s.producers, p); }
    }
  }

  lemma {:induction false} OneInside(ps: seq<Producer>, p: nat)
    requires p < |ps| && !ps[p].Idle?
    ensures Inside(ps) >= 1
  {
    if p > 0 { OneInside(ps[1..], p - 1); }
  }

  lemma StepRoomy(s: State, op: Op)
    requires (Few(s) ==> Roomy(s)) && Few(Apply(s, op))
    ensures Roomy(Apply(s, op))
  {
    assert Few(s);
    match op
    case Offer(p, e) => OfferRoomy(s, p, e);
    case Produce(p) => ProduceRoomy(s, p);
    case _ =>
  }

  lemma {:induction false} NobodyInside(n: nat)
    ensures Inside(seq(n, i => Idle)) == 0
  {
    if n > 0 {
      NobodyInside(n - 1);
      assert seq(n, i => Idle)[1..] == seq(n - 1, i => Idle);
    }
  }

  lemma {:induction false} FewAreRoomy(capacity: nat, producers: nat, workers: nat, ops: seq<Op>)
    ensures var s := Run(Initial(capacity, producers, workers), ops);
            s.capacity == capacity && (Few(s) ==> Roomy(s))
  {
    var start := Initial(capacity, producers, workers);
    if ops == [] {
      NobodyInside(producers);
    } else {
      FewAreRoomy(capacity, producers, workers, ops[..|ops| - 1]);
      RunLast(start, ops);
      var before := Run(start, ops[..|ops| - 1]);
      if Few(Apply(before, ops[|ops| - 1])) { StepRoomy(before, ops[|ops| - 1]); }
    }
  }

  /** With any number of producers and until Stop: while no more events were offered than the queue can hold, none is
      dropped and none is counted as dropped. */
  lemma NoDropWithoutPressure(capacity: nat, producers: nat, workers: nat, ops: seq<Op>)
    requires var s := Run(Initial(capacity, producers, workers), ops);
             !s.flags.closed && |s.history.offered| <= capacity
    ensures var s := Run(Initial(capacity, producers, workers), ops);
            s.history.dropped == [] && s.counts.dropped == 0 && !s.flags.panicked
  {
    FewAreRoomy(capacity, producers, workers, ops);
  }

  /** On an open channel an admitted event is at the end of the queue after its next step, and nothing else happens,
      exactly when it finds room. */
  lemma AdmittedIsQueuedExactlyWithRoom(s: State, p: nat)
    requires !s.flags.panicked && p < |s.producers| && s.producers[p].Admitted? && !s.flags.channelClosed
    ensures |s.queue| < s.capacity <==>
              Apply(s, Produce(p)) == s.(queue := s.queue + [s.producers[p].event], producers := s.producers[p := Idle])
    ensures |s.queue| >= s.capacity ==>
              Apply(s, Produce(p)) == s.(producers := s.producers[p := Full(s.producers[p].event)])
  {
    var t := Apply(s, Produce(p));
    assert t.history == s.history && t.counts == s.counts && t.flags == s.flags;
    if |s.queue| >= s.capacity {
      assert t.producers[p] == Full(s.producers[p].event);
      assert s.producers[p := Idle][p] == Idle;
    }
  }

  /** An Enqueue that found the queue full takes out the oldest event, counts it as dropped, and then sends. */
  lemma FullDropsTheOldest(s: State, p: nat)
    requires !s.flags.panicked && p < |s.producers| && s.producers[p].Full? && !s.flags.channelClosed && s.queue != []
    ensures var e, first := s.producers[p].event, s.queue[0];
            var t := Apply(s, Produce(p));
            var u := Apply(t, Produce(p));
            && t.queue == s.queue[1..] && t.history == s.history
            && u.queue == s.queue[1..] && u.history == s.history.(dropped := s.history.dropped + [first])
            && u.counts == s.counts.(dropped := s.counts.dropped + 1)
            && (|u.queue| < u.capacity ==> Apply(u, Produce(p)).queue == s.queue[1..] + [e])
  {
    var t := Apply(s, Produce(p));
    assert t.producers[p] == Victim(s.producers[p].event, s.queue[0]);
    var u := Apply(t, Produce(p));
    assert u.producers[p] == Retry(s.producers[p].event);
  }

  // ---------------------------------------------------------------------------------
  // Workers

  /** A waiting worker takes the oldest event, and leaves only a closed, empty queue. */
  lemma WorkersTakeTheOldest(s: State, w: nat, stored: bool)
    requires !s.flags.panicked && w < |s.workers| && s.workers[w].Waiting?
    ensures var t := Apply(s, Work(w, stored));
            && (s.queue != [] ==> t.workers[w] == Taken(s.queue[0]) && t.queue == s.queue[1..])
            && (s.queue == [] ==> t.queue == [] && (t.workers[w].Exited? <==> s.flags.channelClosed))
  {
  }

  /** The event the sink just stored. */
  function StoredNow(s: State, op: Op): seq<Event> {
    if !s.flags.panicked && op.Work? && op.w < |s.workers| && s.workers[op.w].Writing? && op.stored
    then [s.workers[op.w].event] else []
  }

  /** The event whose last attempt just failed. */
  function GivenUpNow(s: State, op: Op): seq<Event> {
    if !s.flags.panicked && op.Work? && op.w < |s.workers| && s.workers[op.w].Writing? && !op.stored
       && s.workers[op.w].attempt == MAX_RETRIES
    then [s.workers[op.w].event] else []
  }

  /** All events the sink stored along a run. */
  function StoredLog(s: State, ops: seq<Op>): seq<Event>
    decreases |ops|
  {
    if ops == [] then []
    else StoredLog(s, ops[..|ops| - 1]) + StoredNow(Run(s, ops[..|ops| - 1]), ops[|ops| - 1])
  }

  function GivenUpLog(s: State, ops: seq<Op>): seq<Event>
    decreases |ops|
  {
    if ops == [] then []
    else GivenUpLog(s, ops[..|ops| - 1]) + GivenUpNow(Run(s, ops[..|ops| - 1]), ops[|ops| - 1])
  }

  function WrittenBy(w: Worker): seq<Event> {
    if w.Written? then [w.event] else []
  }

  function LostBy(w: Worker): seq<Event> {
    if w.Lost? then [w.event] else []
  }

  /** Events of which a worker knows the outcome and has not counted it yet. */
  function Uncounted(ws: seq<Worker>, knows: Worker -> seq<Event>, x: Event): nat {
    if ws == [] then 0 else Count(knows(ws[0]), x) + Uncounted(ws[1..], knows, x)
  }

  lemma {:induction false} UncountedUpdate(ws: seq<Worker>, w: nat, next: Worker, knows: Worker -> seq<Event>, x: Event)
    requires w < |ws|
    ensures Uncounted(ws[w := next], knows, x) + Count(knows(ws[w]), x)
              == Uncounted(ws, knows, x) + Count(knows(next), x)
  {
    if w == 0 {
      assert ws[0 := next][1..] == ws[1..];
    } else {
      assert ws[w := next][1..] == ws[1..][w - 1 := next];
      UncountedUpdate(ws[1..], w - 1, next, knows, x);
    }
  }

  lemma WorkerOutcomes(w: Worker, queue: seq<Event>, channelClosed: bool, stored: bool, x: Event)
    ensures var d := WorkerStep(w, queue, channelClosed, stored);
            && Count(d.processed, x) + Count(WrittenBy(d.next), x)
               == Count(WrittenBy(w), x) + Count(if w.Writing? && stored then [w.event] else [], x)
            && Count(d.failed, x) + Count(LostBy(d.next), x)
               == Count(LostBy(w), x)
                  + Count(if w.Writing? && !stored && w.attempt == MAX_RETRIES then [w.event] else [], x)
  {
  }

  lemma WorkProcesses(s: State, w: nat, stored: bool, x: Event)
    requires !s.flags.panicked && w < |s.workers|
    ensures var t := Apply(s, Work(w, stored));
            Count(t.history.processed, x) + Uncounted(t.workers, WrittenBy, x)
            == Count(s.history.processed, x) + Uncounted(s.workers, WrittenBy, x)
               + Count(StoredNow(s, Work(w, stored)), x)
  {
    var d := WorkerStep(s.workers[w], s.queue, s.flags.channelClosed, stored);
    WorkerOutcomes(s.workers[w], s.queue, s.flags.channelClosed, stored, x);
    UncountedUpdate(s.workers, w, d.next, WrittenBy, x);
    CountAppend(s.history.processed, d.processed, x);
  }

  lemma WorkFails(s: State, w: nat, stored: bool, x: Event)
    requires !s.flags.panicked && w < |s.workers|
    ensures var t := Apply(s, Work(w, stored));
            Count(t.history.failed, x) + Uncounted(t.workers, LostBy, x)
            == Count(s.history.failed, x) + Uncounted(s.workers, LostBy, x)
               + Count(GivenUpNow(s, Work(w, stored)), x)
  {
    var d := WorkerStep(s.workers[w], s.queue, s.flags.channelClosed, stored);
    WorkerOutcomes(s.workers[w], s.queue, s.flags.channelClosed, stored, x);
    UncountedUpdate(s.workers, w, d.next, LostBy, x);
    CountAppend(s.history.failed, d.failed, x);
  }

  lemma StepOutcomes(s: State, op: Op, x: Event)
    ensures var t := Apply(s, op);
            && Count(t.history.processed, x) + Uncounted(t.workers, WrittenBy, x)
               == Count(s.history.processed, x) + Uncounted(s.workers, WrittenBy, x) + Count(StoredNow(s, op), x)
            && Count(t.history.failed, x) + Uncounted(t.workers, LostBy, x)
               == Count(s.history.failed, x) + Uncounted(s.workers, LostBy, x) + Count(GivenUpNow(s, op), x)
  {
    if op.Work? && op.w < |s.workers| && !s.flags.panicked {
      WorkProcesses(s, op.w, op.stored, x);
      WorkFails(s, op.w, op.stored, x);
    } else if op.Spawn? && op.w < |s.workers| {
      UncountedUpdate(s.workers, op.w, Waiting, WrittenBy, x);
      UncountedUpdate(s.workers, op.w, Waiting, LostBy, x);
    }
  }

  lemma {:induction false} NobodyUncounted(n: nat, knows: Worker -> seq<Event>, x: Event)
    requires knows(Unstarted) == []
    ensures Uncounted(seq(n, i => Unstarted), knows, x) == 0
  {
    if n > 0 {
      NobodyUncounted(n - 1, knows, x);
      assert seq(n, i => Unstarted)[1..] == seq(n - 1, i => Unstarted);
    }
  }

  /** On every interleaving: the processed events are the stored ones, and the failed events those whose every attempt
      failed, up to what the workers are about to count. */
  lemma {:induction false} OutcomesAreCounted(capacity: nat, producers: nat, workers: nat, ops: seq<Op>, x: Event)
    ensures var start := Initial(capacity, producers, workers);
            var s := Run(start, ops);
            && Count(StoredLog(start, ops), x) == Count(s.history.processed, x) + Uncounted(s.workers, WrittenBy, x)
            && Count(GivenUpLog(start, ops), x) == Count(s.history.failed, x) + Uncounted(s.workers, LostBy, x)
    decreases |ops|
  {
    var start := Initial(capacity, producers, workers);
    if ops == [] {
      NobodyUncounted(workers, WrittenBy, x);
      NobodyUncounted(workers, LostBy, x);
    } else {
      var init, last := ops[..|ops| - 1], ops[|ops| - 1];
      OutcomesAreCounted(capacity, producers, workers, init, x);
      RunLast(start, ops);
      StepOutcomes(Run(start, init), last, x);
      CountAppend(StoredLog(start, init), StoredNow(Run(start, init), last), x);
      CountAppend(GivenUpLog(start, init), GivenUpNow(Run(start, init), last), x);
    }
  }

  // ---------------------------------------------------------------------------------
  // Panics and progress

  /** The program panics exactly when an Enqueue past its check sends on the closed queue. */
  lemma PanicsExactlyOnALateSend(s: State, op: Op)
    requires !s.flags.panicked
    ensures Apply(s, op).flags.panicked <==>
              && op.Produce? && op.p < |s.producers| && s.flags.channelClosed
              && (s.producers[op.p].Admitted? || s.producers[op.p].Retry?)
  {
  }

  /** What a worker changes that handled the oldest event of the queue. */
  ghost predicate Handled(s: State, t: State, w: nat) {
    && w < |s.workers| && s.queue != []
    && t == s.(queue := s.queue[1..], workers := s.workers[w := Waiting],
               counts := s.counts.(processed := s.counts.processed + 1),
               history := s.history.(processed := s.history.processed + [s.queue[0]]))
  }

  lemma {:induction false} OneEventHandled(s: State, w: nat)
    requires !s.flags.panicked && w < |s.workers| && s.workers[w].Waiting? && s.queue != []
    ensures var op := Work(w, true);
            Handled(s, Apply(Apply(Apply(Apply(Apply(s, op), op), op), op), op), w)
  {
    var op, e := Work(w, true), s.queue[0];
    var a := Apply(s, op);
    assert a.workers[w] == Taken(e) && a.queue == s.queue[1..] && a.history == s.history && a.counts == s.counts;
    var b := Apply(a, op);
    assert b.workers[w] == Writing(e, 1) && b.history == s.history && b.counts.processed == s.counts.processed;
    var c := Apply(b, op);
    assert c.workers[w] == Written(e) && c.history == s.history && c.counts == b.counts;
    var d := Apply(c, op);
    assert d.workers[w] == Finishing && d.history.processed == s.history.processed + [e];
    var f := Apply(d, op);
    assert f.workers == s.workers[w := Waiting] && f.history.failed == s.history.failed;
  }

  /** One worker is enough: from any state it can process the whole queue, in order, by its own steps, and when the
      queue is closed it then leaves, so that Stop returns. */
  lemma {:induction false} OneWorkerDrains(s: State, w: nat) returns (ops: seq<Op>)
    requires !s.flags.panicked && w < |s.workers| && (s.workers[w].Unstarted? || s.workers[w].Waiting?)
    ensures forall op | op in ops :: op == Spawn(w) || op == Work(w, true)
    ensures var t := Run(s, ops);
            && t.queue == [] && t.history == s.history.(processed := s.history.processed + s.queue)
            && t.flags == s.flags && t.workers == s.workers[w := if s.flags.channelClosed then Exited else Waiting]
    decreases |s.queue|, if s.workers[w].Unstarted? then 1 else 0
  {
    var op := Work(w, true);
    if s.workers[w].Unstarted? {
      var rest := OneWorkerDrains(Apply(s, Spawn(w)), w);
      RunFirst(s, Spawn(w), rest);
      ops := [Spawn(w)] + rest;
    } else if s.queue == [] {
      ops := [op];
      var none: seq<Op> := [];
      RunFirst(s, op, none);
      assert ops == [op] + none && Run(Apply(s, op), none) == Apply(s, op);
      assert s.history.processed + s.queue == s.history.processed;
      assert Apply(s, op).history.failed == s.history.failed + [];
    } else {
      OneEventHandled(s, w);
      var t := Apply(Apply(Apply(Apply(Apply(s, op), op), op), op), op);
      var rest := OneWorkerDrains(t, w);
      ops := FiveThen(s, op, rest);
      assert s.queue == [s.queue[0]] + s.queue[1..];
      assert t.history.processed + t.queue == s.history.processed + s.queue;
    }
  }

  lemma {:induction false} FiveThen(s: State, op: Op, rest: seq<Op>) returns (ops: seq<Op>)
    ensures forall x | x in ops :: x == op || x in rest
    ensures Run(s, ops) == Run(Apply(Apply(Apply(Apply(Apply(s, op), op), op), op), op), rest)
  {
    var a, b := Apply(s, op), Apply(Apply(s, op), op);
    var c, d := Apply(b, op), Apply(Apply(b, op), op);
    RunFirst(d, op, rest);
    RunFirst(c, op, [op] + rest);
    RunFirst(b, op, [op] + ([op] + rest));
    RunFirst(a, op, [op] + ([op] + ([op] + rest)));
    RunFirst(s, op, [op] + ([op] + ([op] + ([op] + rest))));
    ops := [op] + ([op] + ([op] + ([op] + ([op] + rest))));
  }
}
