/** What an impact request gets: its worker's reply if its context stays live, and a refusal only when all slots are
    taken. */
module AdmissionLaws {
  import opened Options
  import opened ImpactAdmission
  import Runs

  /** The reply the worker of request i computed along a run, if it did. */
  function Computed(s: State, ops: seq<Op>, i: nat): Option<Reply>
    decreases |ops|
  {
    if ops == [] then None
    else
      var init, last := ops[..|ops| - 1], ops[|ops| - 1];
      var before := Computed(s, init, i);
      if before.None? && last.i == i && last.event.Compute? && i < |Run(s, init).requests|
         && Run(s, init).requests[i].worker.Computing?
      then Some(last.event.reply) else before
  }

  /** The answer is the worker's reply, or what the handler says on its own. */
  predicate Answers(answer: Option<Reply>, c: Option<Reply>) {
    OwnError(answer) || answer == c
  }

  /** How a request and the reply its worker computed belong together. */
  predicate Traced(r: Request, c: Option<Reply>) {
    && (r.worker.Unborn? || r.worker.Computing? ==> c == None)
    && (r.worker.Computed? || r.worker.GivingBack? || r.worker.Publishing? ==> c == Some(r.worker.reply))
    && (r.worker.Exited? ==> c.Some?)
    && (r.finished.Some? ==> r.finished == c)
    && (r.handler.Waiting? && r.worker.Exited? ==> r.finished.Some?)
    && (r.handler.Received? ==> Some(r.handler.reply) == c)
    && (r.handler.Replying? ==>
          Answers(r.handler.answer, c) && (r.context == Live ==> c.Some? && r.handler.answer == c))
    && (r.handler.Refusing? ==> OwnError(r.handler.answer) && (r.context == Live ==> r.handler.answer == Some(BUSY)))
    && (!r.handler.Finishing? && !r.handler.Releasing? && !r.handler.Returned? ==> r.written == [])
    && (forall x | x in r.written :: x == BUSY || x == DEADLINE || Some(x) == c)
    && (r.context == Live && (r.handler.Finishing? || r.handler.Releasing? || r.handler.Returned?) ==>
          if WasAdmitted(r) then c.Some? && r.written == [c.value] else r.written == [BUSY])
  }

  function Noted(r: Request, event: Event, c: Option<Reply>): Option<Reply> {
    if c.None? && event.Compute? && r.worker.Computing? then Some(event.reply) else c
  }

  lemma StepTraced(r: Request, event: Event, slots: nat, c: Option<Reply>)
    requires Sound(r) && Traced(r, c)
    ensures Traced(Step(r, event, slots).next, Noted(r, event, c))
  {
    if event == Handle { HandlerTraced(r, slots, c); } else if event == Work { WorkerTraced(r, slots, c); }
  }

  lemma HandlerTraced(r: Request, slots: nat, c: Option<Reply>)
    requires Sound(r) && Traced(r, c)
    ensures Traced(HandlerStep(r, slots).next, c)
  {
  }

  lemma WorkerTraced(r: Request, slots: nat, c: Option<Reply>)
    requires Sound(r) && Traced(r, c)
    ensures Traced(WorkerStep(r, slots).next, c)
  {
  }

  lemma {:induction false} RunTraced(n: nat, ops: seq<Op>, i: nat)
    requires i < n
    ensures |Run(Initial(n), ops).requests| == n
    ensures Traced(Run(Initial(n), ops).requests[i], Computed(Initial(n), ops, i))
    decreases |ops|
  {
    SameRequests(n, ops);
    if ops != [] {
      var init, last := ops[..|ops| - 1], ops[|ops| - 1];
      RunTraced(n, init, i);
      SlotsAreUnfinishedRequests(n, init);
      Runs.RunLast(Apply, Initial(n), ops);
      var s := Run(Initial(n), init);
      assert Sound(s.requests[i]);
      if last.i == i { StepTraced(s.requests[i], last.event, s.slots, Computed(Initial(n), init, i)); }
    }
  }

  /** Whatever is written is the reply its worker computed, or one of the handler's own errors. */
  lemma NothingElseIsWritten(n: nat, ops: seq<Op>, i: nat, x: Reply)
    requires i < n && |Run(Initial(n), ops).requests| == n && x in Run(Initial(n), ops).requests[i].written
    ensures x == BUSY || x == DEADLINE || Computed(Initial(n), ops, i) == Some(x)
  {
    RunTraced(n, ops, i);
  }

  /** A request whose context stays live gets exactly one response: the reply its worker computed if it was admitted,
      and the refusal if it was not. */
  lemma LiveRequestGetsItsReply(n: nat, ops: seq<Op>, i: nat)
    requires i < n && |Run(Initial(n), ops).requests| == n
    requires Run(Initial(n), ops).requests[i].context == Live && Run(Initial(n), ops).requests[i].handler.Returned?
    ensures var r := Run(Initial(n), ops).requests[i];
            if WasAdmitted(r)
            then Computed(Initial(n), ops, i).Some? && r.written == [Computed(Initial(n), ops, i).value]
            else r.written == [BUSY]
  {
    RunTraced(n, ops, i);
  }

  /** A request that asks for a slot gets one exactly when not all are taken by unfinished requests. */
  lemma AdmittedExactlyWithAFreeSlot(n: nat, ops: seq<Op>, i: nat)
    requires i < n && |Run(Initial(n), ops).requests| == n && Run(Initial(n), ops).requests[i].handler.Trying?
    ensures var s, t := Run(Initial(n), ops), Apply(Run(Initial(n), ops), Op(i, Handle));
            && (t.requests[i].handler.Admitted? <==> Occupied(s.requests) < 2)
            && (t.requests[i].handler == Refusing(Some(BUSY)) <==> Occupied(s.requests) == 2)
  {
    SlotsAreUnfinishedRequests(n, ops);
  }

  /** An ended context is answered with the deadline error if it expired, and with silence if the client left. */
  lemma EndedContextAnswers(r: Request, slots: nat)
    requires r.handler.Waiting? && r.context != Live
    ensures Step(r, TakeDone, slots).next.handler == Replying(if r.context == Canceled then None else Some(DEADLINE))
  {
  }

  // ---------------------------------------------------------------------------------
  // Every request can finish

  function HandlerRank(h: Handler): nat {
    match h
    case Fresh => 9
    case Trying => 8
    case Admitted => 7
    case Waiting => 6
    case Received(_) => 5
    case Replying(_) => 4
    case Finishing => 3
    case Releasing => 2
    case Refusing(_) => 1
    case Returned => 0
  }

  function WorkerRank(w: Worker): nat {
    match w
    case Computing => 4
    case Computed(_) => 3
    case GivingBack(_) => 2
    case Publishing(_) => 1
    case _ => 0
  }

  function Rank(r: Request): nat {
    10 * HandlerRank(r.handler) + WorkerRank(r.worker)
  }

  predicate Done(r: Request) {
    r.handler.Returned? && (r.worker.Unborn? || r.worker.Exited?)
  }

  /** The step that is due if the computation yields `reply`. */
  function Due(r: Request, reply: Reply): Event {
    if r.worker.Computing? then Compute(reply)
    else if !r.worker.Unborn? && !r.worker.Exited? then Work
    else if r.handler.Waiting? then TakeReply
    else Handle
  }

  lemma DueAdvances(r: Request, slots: nat, c: Option<Reply>, reply: Reply)
    requires Sound(r) && Traced(r, c) && Slot(r) <= slots && !Done(r)
    ensures Rank(Step(r, Due(r, reply), slots).next) < Rank(r)
  {
  }

  /** No interleaving leaves a request stuck: its own steps alone always end both of its goroutines, without an end of
      its context. */
  lemma {:induction false} EveryRequestCanFinish(n: nat, ops: seq<Op>, i: nat, reply: Reply) returns (more: seq<Op>)
    requires i < n && |Run(Initial(n), ops).requests| == n
    ensures ops <= more && (forall k | |ops| <= k < |more| :: more[k].i == i && !more[k].event.End?)
    ensures |Run(Initial(n), more).requests| == n && Done(Run(Initial(n), more).requests[i])
    decreases Rank(Run(Initial(n), ops).requests[i])
  {
    var s := Run(Initial(n), ops);
    var r := s.requests[i];
    more := ops;
    if !Done(r) {
      SlotsAreUnfinishedRequests(n, ops);
      RunTraced(n, ops, i);
      OneOfTheOccupied(s.requests, i);
      assert Sound(r);
      DueAdvances(r, s.slots, Computed(Initial(n), ops, i), reply);
      var next := ops + [Op(i, Due(r, reply))];
      Runs.RunLast(Apply, Initial(n), next);
      assert next[..|ops|] == ops;
      more := EveryRequestCanFinish(n, next, i, reply);
    }
  }

  // ---------------------------------------------------------------------------------
  // The context

  /** The first of its ends decides what a context is. */
  function FirstEnd(ops: seq<Op>, i: nat): Context {
    if ops == [] then Live
    else if ops[0].i == i && ops[0].event.End? then if ops[0].event.expired then Expired else Canceled
    else FirstEnd(ops[1..], i)
  }

  lemma {:induction false} ContextAlong(s: State, ops: seq<Op>, i: nat)
    requires i < |s.requests|
    ensures i < |Run(s, ops).requests|
    ensures Run(s, ops).requests[i].context
            == if s.requests[i].context == Live then FirstEnd(ops, i) else s.requests[i].context
    decreases |ops|
  {
    if ops != [] {
      ContextAlong(Apply(s, ops[0]), ops[1..], i);
      Runs.RunFirst(Apply, s, ops[0], ops[1..]);
      assert ops == [ops[0]] + ops[1..];
    }
  }

  /** A context is live until it is first ended, and then what that end made it. */
  lemma ContextIsItsFirstEnd(n: nat, ops: seq<Op>, i: nat)
    requires i < n
    ensures i < |Run(Initial(n), ops).requests| && Run(Initial(n), ops).requests[i].context == FirstEnd(ops, i)
  {
    ContextAlong(Initial(n), ops, i);
  }
}
