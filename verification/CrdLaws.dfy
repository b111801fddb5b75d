/** Which CRDs are observed, field by field, and what a registration and its run then do. */
module CrdLaws {
  import opened Options
  import opened CrdModel
  import opened CrdRuns
  import Runs

  /** What a CRD must look like to be observed. */
  ghost predicate MayRegister(id: Identity) {
    && id.name != "" && id.uid != "" && id.gvr.group != ""
    && id.name == id.gvr.resource + "." + id.gvr.group
    && id.kind != "Secret"
    && id.scope in {Namespaced, ClusterWide}
  }

  /** The run registered under the name of an identity observes that identity. */
  ghost predicate Observed(s: State, id: Identity) {
    id.name in s.informers && s.informers[id.name] < |s.watches| && s.watches[s.informers[id.name]].identity == id
  }

  // ---------------------------------------------------------------------------------
  // Identities

  ghost predicate AllMayRegister(s: State) {
    forall i | 0 <= i < |s.watches| :: MayRegister(s.watches[i].identity)
  }

  lemma StepMayRegister(s: State, op: Op)
    requires AllMayRegister(s)
    ensures AllMayRegister(Apply(s, op))
  {
  }

  /** On every run only CRDs with a complete, consistent identity, a known scope and a kind other than Secret are ever
      observed. */
  lemma {:induction false} OnlyValidIdentitiesRun(ops: seq<Op>)
    ensures AllMayRegister(Reached(ops))
  {
    if ops != [] {
      OnlyValidIdentitiesRun(ops[..|ops| - 1]);
      StepMayRegister(Reached(ops[..|ops| - 1]), ops[|ops| - 1]);
      Runs.RunLast(Apply, INITIAL, ops);
    }
  }

  /** Registering, or already running: the identity is observed, by a run that was not cancelled. */
  lemma AcceptedIsObserved(s: State, id: Identity)
    requires Inv(s) && AllMayRegister(s) && !s.shutdown && MayRegister(id)
    ensures var t := Apply(s, Reconcile(id, true, true, true));
            Observed(t, id) && !t.watches[t.informers[id.name]].cancelled
  {
    RegisteredIsObserved(Stopped(s, id.name), id);
    if Observed(s, id) { assert !s.watches[s.informers[id.name]].cancelled; }
  }

  lemma RegisteredIsObserved(s: State, id: Identity)
    ensures var t := Registered(s, id);
            Observed(t, id) && !t.watches[t.informers[id.name]].cancelled
  {
  }

  lemma RefusedIsGone(s: State, id: Identity, served: bool, wellFormed: bool, handled: bool)
    requires Inv(s) && AllMayRegister(s) && !s.shutdown
    requires !(served && Observed(s, id)) && !(served && wellFormed && handled && MayRegister(id))
    ensures Apply(s, Reconcile(id, served, wellFormed, handled)) == Stopped(s, id.name)
    ensures id.name !in Stopped(s, id.name).informers
  {
    StoppedKeepsInv(s, id.name);
  }

  /** After a served, well-formed and handled report, outside shutdown, a CRD is observed exactly when its identity may
      be. */
  lemma ServedIsObservedExactly(ops: seq<Op>, id: Identity)
    requires !Reached(ops).shutdown
    ensures Observed(Apply(Reached(ops), Reconcile(id, true, true, true)), id) <==> MayRegister(id)
  {
    var s := Reached(ops);
    RunKeepsInv(ops);
    OnlyValidIdentitiesRun(ops);
    if MayRegister(id) {
      AcceptedIsObserved(s, id);
    } else {
      assert !Observed(s, id);
      RefusedIsGone(s, id, true, true, true);
    }
  }

  /** A report leaves the runs of other names alone. */
  lemma OtherNamesKeepTheirRuns(s: State, id: Identity, served: bool, wellFormed: bool, handled: bool, name: string)
    requires Inv(s) && name != id.name
    ensures var t := Apply(s, Reconcile(id, served, wellFormed, handled));
            && (name in t.informers <==> name in s.informers)
            && (name in s.informers ==> t.informers[name] == s.informers[name] && s.informers[name] < |t.watches|
                                        && t.watches[s.informers[name]] == s.watches[s.informers[name]])
  {
    if name in s.informers && id.name in s.informers {
      assert s.watches[s.informers[name]].identity.name == name;
      assert s.watches[s.informers[id.name]].identity.name == id.name;
    }
  }

  /** A malformed, unhandled or unserved replacement leaves nothing registered and nothing
      uncancelled under its name. */
  lemma RefusedReplacementStopsTheOld(ops: seq<Op>, id: Identity, served: bool, wellFormed: bool, handled: bool)
    requires !Reached(ops).shutdown && !(served && Observed(Reached(ops), id))
    requires !(served && wellFormed && handled && MayRegister(id))
    ensures var t := Apply(Reached(ops), Reconcile(id, served, wellFormed, handled));
            && id.name !in t.informers
            && forall i | 0 <= i < |t.watches| && t.watches[i].identity.name == id.name :: t.watches[i].cancelled
  {
    RunKeepsInv(ops);
    OnlyValidIdentitiesRun(ops);
    RefusedIsGone(Reached(ops), id, served, wellFormed, handled);
    StoppedKeepsInv(Reached(ops), id.name);
  }

  // ---------------------------------------------------------------------------------
  // Runs

  /** Nothing hinders a run: it is registered, the process is up, and nobody holds the lock of its family. */
  ghost predicate Free(s: State, i: nat) {
    && i < |s.watches| && s.watches[i].family < |s.arena| && s.watches[i].phase == Idle
    && !s.watches[i].ended && !s.watches[i].cancelled && !s.shutdown && s.arena[s.watches[i].family].holder == None
  }

  /** An unhindered delivery begins, writes to the store, and gives the lock back. */
  lemma UnhinderedDeliveryWrites(s: State, i: nat)
    requires Free(s, i)
    ensures var a := Apply(s, Deliver(i, true));
            var b := Apply(a, Deliver(i, true));
            var c := Apply(b, Deliver(i, true));
            var d := Apply(c, Deliver(i, true));
            var e := Apply(d, Deliver(i, true));
            var f := Apply(e, Deliver(i, false));
            f == s.(trace := s.trace + [Began(i)] + [Wrote(i)])
  {
    var a := Apply(s, Deliver(i, true));
    var b := Apply(a, Deliver(i, true));
    assert b.trace == s.trace + [Began(i)] && b.watches[i] == s.watches[i].(phase := Ready);
    var c := Apply(b, Deliver(i, true));
    var d := Apply(c, Deliver(i, true));
    assert d.trace == s.trace + [Began(i)] + [Wrote(i)] && d.watches[i] == s.watches[i].(phase := Writing);
    var e := Apply(d, Deliver(i, true));
    var f := Apply(e, Deliver(i, false));
    assert f.watches[i] == s.watches[i];
    assert f.watches == s.watches && f.arena == s.arena;
  }

  /** A cancelled run that was ready to write ends its delivery instead. */
  lemma CancelledRunDoesNotWrite(s: State, i: nat, write: bool)
    requires i < |s.watches| && s.watches[i].family < |s.arena| && s.watches[i].phase == Ready
    requires s.watches[i].cancelled || s.shutdown
    ensures var t := Apply(s, Deliver(i, write));
            t.trace == s.trace && t.watches[i].phase == Idle && t.arena[s.watches[i].family].holder == None
  {
  }

  // ---------------------------------------------------------------------------------
  // Repetition, shutdown and the end of runs

  /** Reporting a CRD again changes nothing: the run of an unchanged identity is not restarted. */
  lemma ReportingAgainChangesNothing(ops: seq<Op>, id: Identity, served: bool, wellFormed: bool, handled: bool)
    ensures var op := Reconcile(id, served, wellFormed, handled);
            Apply(Apply(Reached(ops), op), op) == Apply(Reached(ops), op)
  {
    var s := Reached(ops);
    RunKeepsInv(ops);
    StoppedKeepsInv(s, id.name);
    RegisteredIsObserved(Stopped(s, id.name), id);
  }

  /** What a process that is shutting down may still do: no run starts, and no write begins that was not cleared
      before. */
  ghost predicate WindsDown(s: State, t: State) {
    && t.shutdown && |t.watches| == |s.watches| && s.trace <= t.trace
    && (forall i | 0 <= i < |s.watches| :: t.watches[i].phase == Cleared ==> s.watches[i].phase == Cleared)
    && forall a | |s.trace| <= a < |t.trace| && t.trace[a].Wrote? ::
         t.trace[a].run < |s.watches| && s.watches[t.trace[a].run].phase == Cleared
  }

  lemma WindsDownStep(s: State, t: State, op: Op)
    requires WindsDown(s, t)
    ensures WindsDown(s, Apply(t, op))
  {
    if op.Deliver? && op.run < |t.watches| && t.watches[op.run].family < |t.arena| {
      DeliveredWindsDown(s, t, op.run, op.write);
    }
  }

  lemma DeliveredWindsDown(s: State, t: State, i: nat, write: bool)
    requires WindsDown(s, t) && i < |t.watches| && t.watches[i].family < |t.arena|
    ensures WindsDown(s, Delivered(t, i, write))
  {
    assert t.trace + [] == t.trace;
  }

  /** After a shutdown no run is registered any more, and only writes that were cleared before it still happen. */
  lemma {:induction false} ShutdownWindsDown(s: State, ops: seq<Op>)
    ensures WindsDown(s, Runs.Run(Apply, Apply(s, Shutdown), ops))
  {
    if ops != [] {
      ShutdownWindsDown(s, ops[..|ops| - 1]);
      Runs.RunLast(Apply, Apply(s, Shutdown), ops);
      WindsDownStep(s, Runs.Run(Apply, Apply(s, Shutdown), ops[..|ops| - 1]), ops[|ops| - 1]);
    }
  }

  ghost predicate EndedWereStopped(s: State) {
    forall i | 0 <= i < |s.watches| && s.watches[i].ended :: s.watches[i].cancelled || s.shutdown
  }

  lemma EndedWereStoppedStep(s: State, op: Op)
    requires EndedWereStopped(s)
    ensures EndedWereStopped(Apply(s, op))
  {
  }

  /** A registered run goes on until it is replaced, deregistered or shut down. */
  lemma {:induction false} OnlyStoppedRunsEnd(ops: seq<Op>)
    ensures EndedWereStopped(Reached(ops))
  {
    if ops != [] {
      OnlyStoppedRunsEnd(ops[..|ops| - 1]);
      EndedWereStoppedStep(Reached(ops[..|ops| - 1]), ops[|ops| - 1]);
      Runs.RunLast(Apply, INITIAL, ops);
    }
  }

  function PhaseRank(p: Phase): nat {
    match p
    case Idle => 1
    case Ready => 2
    case Writing => 3
    case Cleared => 4
    case Blocked => 5
  }

  /** How far run i is from its end; a blocked run also waits for the run that holds the lock. */
  function Distance(s: State, i: nat): nat
    requires i < |s.watches| && s.watches[i].family < |s.arena|
  {
    var holder := s.arena[s.watches[i].family].holder;
    if s.watches[i].ended then 0
    else if s.watches[i].phase != Blocked then PhaseRank(s.watches[i].phase)
    else if holder.Some? && holder.value < |s.watches| then 5 + PhaseRank(s.watches[holder.value].phase)
    else 5
  }

  /** The step due on the way of run i to its end: its own, or of the run whose delivery it waits for. */
  function NextToEnd(s: State, i: nat): Op
    requires i < |s.watches| && s.watches[i].family < |s.arena|
  {
    var holder := s.arena[s.watches[i].family].holder;
    if s.watches[i].phase == Idle then End(i)
    else if s.watches[i].phase == Blocked && holder.Some? then Deliver(holder.value, false)
    else Deliver(i, false)
  }

  ghost predicate Closer(s: State, t: State, i: nat) {
    && i < |s.watches| && s.watches[i].family < |s.arena|
    && i < |t.watches| && t.watches[i].family == s.watches[i].family < |t.arena|
    && t.watches[i].cancelled == s.watches[i].cancelled && t.shutdown == s.shutdown
    && Distance(t, i) < Distance(s, i)
  }

  lemma HolderGivesWay(s: State, i: nat, j: nat)
    requires i < |s.watches| && j < |s.watches| && i != j && !s.watches[i].ended && s.watches[i].phase == Blocked
    requires s.watches[j].family == s.watches[i].family < |s.arena| && Holds(s.watches[j].phase)
    requires s.arena[s.watches[i].family].holder == Some(j)
    ensures Closer(s, Apply(s, Deliver(j, false)), i)
  {
  }

  lemma OwnStepIsCloser(s: State, i: nat)
    requires i < |s.watches| && s.watches[i].family < |s.arena| && !s.watches[i].ended && s.watches[i].phase != Idle
    requires s.watches[i].phase == Blocked ==> s.arena[s.watches[i].family].holder == None
    ensures Closer(s, Apply(s, Deliver(i, false)), i)
  {
  }

  lemma NextIsCloser(s: State, i: nat)
    requires Inv(s) && i < |s.watches| && !s.watches[i].ended && (s.watches[i].cancelled || s.shutdown)
    ensures Closer(s, Apply(s, NextToEnd(s, i)), i)
  {
    var holder := s.arena[s.watches[i].family].holder;
    if s.watches[i].phase == Blocked && holder.Some? {
      HolderGivesWay(s, i, holder.value);
    } else if s.watches[i].phase != Idle {
      OwnStepIsCloser(s, i);
    }
  }

  predicate Finishes(op: Op, i: nat) {
    op == End(i) || (op.Deliver? && !op.write)
  }

  /** A stopped run never hangs: the deliveries under way can be finished, without further writes of other
      runs, and then it ends. */
  lemma {:induction false} StoppedRunCanEnd(s: State, i: nat) returns (more: seq<Op>)
    requires Inv(s) && i < |s.watches| && (s.watches[i].cancelled || s.shutdown)
    ensures forall op | op in more :: Finishes(op, i)
    ensures i < |Runs.Run(Apply, s, more).watches| && Runs.Run(Apply, s, more).watches[i].ended
    decreases Distance(s, i)
  {
    more := [];
    if !s.watches[i].ended {
      var op := NextToEnd(s, i);
      ApplyKeepsInv(s, op);
      NextIsCloser(s, i);
      var rest := StoppedRunCanEnd(Apply(s, op), i);
      more := [op] + rest;
      Runs.RunFirst(Apply, s, op, rest);
    }
  }
}
