/**
 * Admission of impact requests: a semaphore channel shared by all requests, and for each admitted
 * request a handler goroutine that writes the response and a worker goroutine that computes it.
 * The slot is given back by whichever of the two finishes last.
 */
module ImpactAdmission {

  import opened Options
  import Runs

  const CAPACITY: nat := 2

  datatype Reply = Reply(status: nat, body: string)

  const BUSY := Reply(429, "impact analysis capacity is busy")
  const DEADLINE := Reply(504, "impact analysis exceeded its request deadline")

  datatype Context = Live | Canceled | Expired

  /** Where the handler stands; Replying(None) leaves without writing. */
  datatype Handler =
    | Fresh
    | Trying
    | Admitted
    | Waiting
    | Received(reply: Reply)
    | Replying(answer: Option<Reply>)
    | Finishing
    | Releasing
    | Refusing(answer: Option<Reply>)
    | Returned

  datatype Worker =
    | Unborn
    | Computing
    | Computed(reply: Reply)
    | GivingBack(reply: Reply)
    | Publishing(reply: Reply)
    | Exited

  /** One request: its two goroutines, the counter they share, the reply channel, and what was written and released. */
  datatype Request = Request(handler: Handler, worker: Worker, outstanding: int, finished: Option<Reply>,
                             context: Context, written: seq<Reply>, releases: nat)

  datatype State = State(slots: nat, requests: seq<Request>)

  datatype Event =
    | Handle
    | TakeReply
    | TakeDone
    | Compute(reply: Reply)
    | Work
    | End(expired: bool)

  datatype Op = Op(i: nat, event: Event)

  const ARRIVED := Request(Fresh, Unborn, 0, None, Live, [], 0)

  function Initial(n: nat): State {
    State(0, seq(n, i => ARRIVED))
  }

  /** What one step of one request does to it and to the semaphore. */
  datatype Effect = Effect(next: Request, slots: nat)

  /** The answer of a handler that finds its context ended: nothing for a gone client, else the deadline error. */
  function AfterEnd(context: Context): Option<Reply> {
    if context == Canceled then None else Some(DEADLINE)
  }

  function HandlerStep(r: Request, slots: nat): Effect {
    match r.handler
    case Fresh => Effect(r.(handler := if r.context == Live then Trying else Refusing(AfterEnd(r.context))), slots)
    case Trying =>
      if slots < CAPACITY then Effect(r.(handler := Admitted), slots + 1)
          else Effect(r.(handler := Refusing(Some(BUSY))), slots)
    case Admitted => Effect(r.(handler := Waiting, worker := Computing, outstanding := 2), slots)
    case Received(reply) =>
      Effect(r.(handler := Replying(if r.context == Live then Some(reply) else AfterEnd(r.context))), slots)
    case Replying(answer) => Effect(r.(handler := Finishing, written := r.written + Written(answer)), slots)
    case Finishing =>
      Effect(r.(handler := if r.outstanding == 1 then Releasing else Returned, outstanding := r.outstanding - 1), slots)
    case Releasing => if slots > 0 then Effect(r.(handler := Returned, releases := r.releases + 1), slots - 1)
        else Effect(r, slots)
    case Refusing(answer) => Effect(r.(handler := Returned, written := r.written + Written(answer)), slots)
    case _ => Effect(r, slots)
  }

  function Written(answer: Option<Reply>): seq<Reply> {
    match answer
    case None => []
    case Some(reply) => [reply]
  }

  function WorkerStep(r: Request, slots: nat): Effect {
    match r.worker
    case Computed(reply) =>
      Effect(r.(worker := if r.outstanding == 1 then GivingBack(reply) else Publishing(reply),
                outstanding := r.outstanding - 1), slots)
    case GivingBack(reply) =>
      if slots > 0 then Effect(r.(worker := Publishing(reply), releases := r.releases + 1), slots - 1)
          else Effect(r, slots)
    case Publishing(reply) => if r.finished == None then Effect(r.(worker := Exited, finished := Some(reply)), slots)
        else Effect(r, slots)
    case _ => Effect(r, slots)
  }

  /** The two cases of the handler's select, the worker's computation, and the end of the context. */
  function Step(r: Request, event: Event, slots: nat): Effect {
    match event
    case Handle => HandlerStep(r, slots)
    case TakeReply =>
      if r.handler == Waiting && r.finished.Some?
      then Effect(r.(handler := Received(r.finished.value), finished := None), slots)
      else Effect(r, slots)
    case TakeDone =>
      if r.handler == Waiting && r.context != Live then Effect(r.(handler := Replying(AfterEnd(r.context))), slots)
      else Effect(r, slots)
    case Compute(reply) => Effect(if r.worker == Computing then r.(worker := Computed(reply)) else r, slots)
    case Work => WorkerStep(r, slots)
    case End(expired) =>
      Effect(if r.context == Live then r.(context := if expired then Expired else Canceled) else r, slots)
  }

  function Apply(s: State, op: Op): State {
    if op.i < |s.requests| then
      var d := Step(s.requests[op.i], op.event, s.slots);
      State(d.slots, s.requests[op.i := d.next])
    else s
  }

  function Run(s: State, ops: seq<Op>): State {
    Runs.Run(Apply, s, ops)
  }

  // ---------------------------------------------------------------------------------
  // The slot of one request

  predicate WasAdmitted(r: Request) {
    !r.handler.Fresh? && !r.handler.Trying? && !r.handler.Refusing? && !(r.handler.Returned? && r.worker.Unborn?)
  }

  /** Its response writing is unfinished. */
  predicate HandlerBusy(r: Request) {
    WasAdmitted(r) && !r.handler.Releasing? && !r.handler.Returned?
  }

  /** Its computation is unfinished. */
  predicate WorkerBusy(r: Request) {
    r.handler.Admitted? || r.worker.Computing? || r.worker.Computed?
  }

  /** One of the two is giving the slot back. */
  predicate InRelease(r: Request) {
    r.handler.Releasing? || r.worker.GivingBack?
  }

  predicate Occupies(r: Request) {
    HandlerBusy(r) || WorkerBusy(r) || InRelease(r)
  }

  function Slot(r: Request): nat {
    if Occupies(r) then 1 else 0
  }

  /** What always holds of one request. */
  predicate Sound(r: Request) {
    && (r.worker.Unborn? <==> !WasAdmitted(r) || r.handler.Admitted?)
    && (!r.worker.Unborn? ==> r.outstanding == (if HandlerBusy(r) then 1 else 0) + (if WorkerBusy(r) then 1 else 0))
    && !(r.handler.Releasing? && r.worker.GivingBack?)
    && (InRelease(r) ==> !HandlerBusy(r) && !WorkerBusy(r))
    && r.releases == (if WasAdmitted(r) && !Occupies(r) then 1 else 0)
    && (r.finished.Some? ==> r.worker.Exited?) && (r.handler.Received? ==> r.worker.Exited? && r.finished.None?)
    && |r.written| <= (if r.handler.Finishing? || r.handler.Releasing? || r.handler.Returned? then 1 else 0)
  }

  /** Each step keeps a request sound and moves the semaphore exactly as its slot moves. */
  lemma StepSound(r: Request, event: Event, slots: nat)
    requires Sound(r) && Slot(r) <= slots <= CAPACITY
    ensures var d := Step(r, event, slots);
            Sound(d.next) && d.slots - Slot(d.next) == slots - Slot(r) && d.slots <= CAPACITY
  {
    if event == Handle { HandlerSound(r, slots); } else if event == Work { WorkerSound(r, slots); }
  }

  lemma HandlerSound(r: Request, slots: nat)
    requires Sound(r) && Slot(r) <= slots <= CAPACITY
    ensures var d := HandlerStep(r, slots);
            Sound(d.next) && d.slots - Slot(d.next) == slots - Slot(r) && d.slots <= CAPACITY
  {
  }

  lemma WorkerSound(r: Request, slots: nat)
    requires Sound(r) && Slot(r) <= slots <= CAPACITY
    ensures var d := WorkerStep(r, slots);
            Sound(d.next) && d.slots - Slot(d.next) == slots - Slot(r) && d.slots <= CAPACITY
  {
  }

  // ---------------------------------------------------------------------------------
  // All requests

  function Occupied(requests: seq<Request>): nat {
    if requests == [] then 0 else Slot(requests[0]) + Occupied(requests[1..])
  }

  ghost predicate Inv(s: State) {
    && s.slots == Occupied(s.requests) <= CAPACITY
    && forall i | 0 <= i < |s.requests| :: Sound(s.requests[i])
  }

  lemma {:induction false} OccupiedUpdate(requests: seq<Request>, i: nat, next: Request)
    requires i < |requests|
    ensures Occupied(requests[i := next]) - Slot(next) == Occupied(requests) - Slot(requests[i]) >= 0
  {
    if i == 0 {
      assert requests[0 := next][1..] == requests[1..];
    } else {
      assert requests[i := next][1..] == requests[1..][i - 1 := next];
      OccupiedUpdate(requests[1..], i - 1, next);
    }
  }

  lemma ApplyKeepsInv(s: State, op: Op)
    requires Inv(s)
    ensures Inv(Apply(s, op))
  {
    if op.i < |s.requests| {
      var r := s.requests[op.i];
      OccupiedUpdate(s.requests, op.i, r);
      StepSound(r, op.event, s.slots);
      OccupiedUpdate(s.requests, op.i, Step(r, op.event, s.slots).next);
    }
  }

  lemma {:induction false} NobodyOccupies(n: nat)
    ensures Inv(Initial(n))
  {
    if n > 0 {
      NobodyOccupies(n - 1);
      assert seq(n, i => ARRIVED)[1..] == seq(n - 1, i => ARRIVED);
    }
  }

  /**
   * On every interleaving the occupied slots are the admitted requests whose computation or response writing
   * is unfinished (or which are in the act of giving the slot back), and never more than the capacity.
   */
  lemma {:induction false} SlotsAreUnfinishedRequests(n: nat, ops: seq<Op>)
    ensures Inv(Run(Initial(n), ops))
  {
    NobodyOccupies(n);
    if ops != [] {
      SlotsAreUnfinishedRequests(n, ops[..|ops| - 1]);
      ApplyKeepsInv(Run(Initial(n), ops[..|ops| - 1]), ops[|ops| - 1]);
      Runs.RunLast(Apply, Initial(n), ops);
    }
  }

  lemma {:induction false} OneOfTheOccupied(requests: seq<Request>, i: nat)
    requires i < |requests|
    ensures Slot(requests[i]) <= Occupied(requests)
  {
    if i > 0 { OneOfTheOccupied(requests[1..], i - 1); }
  }

  /** A goroutine about to release finds a token: its next step releases, and the reply channel has room for its one
      reply. */
  lemma ReleaseNeverBlocks(n: nat, ops: seq<Op>, i: nat)
    requires i < n
    ensures var s := Run(Initial(n), ops);
            && |s.requests| == n
            && (s.requests[i].handler.Releasing? ==> Apply(s, Op(i, Handle)).requests[i].handler.Returned?)
            && (s.requests[i].worker.GivingBack? ==> Apply(s, Op(i, Work)).requests[i].worker.Publishing?)
            && (s.requests[i].worker.Publishing? ==> Apply(s, Op(i, Work)).requests[i].worker.Exited?)
  {
    var s := Run(Initial(n), ops);
    SameRequests(n, ops);
    SlotsAreUnfinishedRequests(n, ops);
    OneOfTheOccupied(s.requests, i);
    assert Sound(s.requests[i]);
  }

  lemma {:induction false} SameRequests(n: nat, ops: seq<Op>)
    ensures |Run(Initial(n), ops).requests| == n
  {
    if ops != [] {
      SameRequests(n, ops[..|ops| - 1]);
      Runs.RunLast(Apply, Initial(n), ops);
    }
  }

  /** Each admitted request gives its slot back exactly once, and only after both of its parts ended. */
  lemma ReleasedExactlyOnce(n: nat, ops: seq<Op>, i: nat)
    requires i < n
    ensures var s := Run(Initial(n), ops);
            && |s.requests| == n && s.requests[i].releases <= 1
            && (s.requests[i].releases == 1 ==> !HandlerBusy(s.requests[i]) && !WorkerBusy(s.requests[i]))
            && (s.requests[i].handler.Returned? && s.requests[i].worker.Exited? ==> s.requests[i].releases == 1)
            && (s.requests[i].handler.Returned? && s.requests[i].worker.Unborn? ==> s.requests[i].releases == 0)
  {
    SameRequests(n, ops);
    SlotsAreUnfinishedRequests(n, ops);
    assert Sound(Run(Initial(n), ops).requests[i]);
  }

  /** A handler that answers with the worker's reply gives the slot back itself, before it returns. */
  lemma CompletedReplyReleasesFirst(n: nat, ops: seq<Op>, i: nat)
    requires i < n
    ensures var s := Run(Initial(n), ops);
            && |s.requests| == n
            && (s.requests[i].handler.Finishing? && s.requests[i].worker.Exited? ==>
               Apply(s, Op(i, Handle)).requests[i].handler.Releasing?)
  {
    SameRequests(n, ops);
    SlotsAreUnfinishedRequests(n, ops);
    assert Sound(Run(Initial(n), ops).requests[i]);
  }

  // ---------------------------------------------------------------------------------
  // Who writes

  /** Only the handler writes a response, and never a second one. */
  lemma WorkerNeverWrites(s: State, op: Op)
    requires op.event != Handle
    ensures |Apply(s, op).requests| == |s.requests|
            && forall i | 0 <= i < |s.requests| :: Apply(s, op).requests[i].written == s.requests[i].written
  {
  }

  lemma OneResponse(n: nat, ops: seq<Op>, i: nat)
    requires i < n
    ensures |Run(Initial(n), ops).requests| == n && |Run(Initial(n), ops).requests[i].written| <= 1
  {
    SameRequests(n, ops);
    SlotsAreUnfinishedRequests(n, ops);
    assert Sound(Run(Initial(n), ops).requests[i]);
  }

  predicate OwnError(answer: Option<Reply>) {
    answer == None || answer == Some(BUSY) || answer == Some(DEADLINE)
  }

  /** The context ended before the handler chose what to write. */
  predicate TooLate(r: Request) {
    && r.context != Live
    && (r.handler.Replying? || r.handler.Refusing? ==> OwnError(r.handler.answer))
    && forall x | x in r.written :: x == BUSY || x == DEADLINE
  }

  lemma StepStaysTooLate(r: Request, event: Event, slots: nat)
    requires TooLate(r)
    ensures TooLate(Step(r, event, slots).next)
  {
  }

  lemma {:induction false} RunStaysTooLate(s: State, ops: seq<Op>, i: nat)
    requires i < |s.requests| && TooLate(s.requests[i])
    ensures i < |Run(s, ops).requests| && TooLate(Run(s, ops).requests[i])
  {
    if ops != [] {
      RunStaysTooLate(s, ops[..|ops| - 1], i);
      var before := Run(s, ops[..|ops| - 1]);
      StepStaysTooLate(before.requests[i], ops[|ops| - 1].event, before.slots);
      Runs.RunLast(Apply, s, ops);
    }
  }

  /**
   * A late worker cannot turn a timeout into a success: once the context of a request ends while its handler has
   * not yet chosen an answer, whatever is computed and in whatever order, only the handler's own errors are written.
   */
  lemma LateReplyIsNeverWritten(s: State, ops: seq<Op>, i: nat)
    requires i < |s.requests| && s.requests[i].context != Live && s.requests[i].written == []
    requires !s.requests[i].handler.Replying? && !s.requests[i].handler.Refusing?
    ensures i < |Run(s, ops).requests|
    ensures forall x | x in Run(s, ops).requests[i].written :: x == BUSY || x == DEADLINE
  {
    RunStaysTooLate(s, ops, i);
  }
}
