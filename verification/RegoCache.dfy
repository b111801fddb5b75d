/**
 * The evaluation cache of pkg/extractor/rego: concurrent calls of GetOrEvaluate over one LRU, one
 * mutex and one map of evaluations in flight. An evaluation may fail and an entry may be evicted
 * at any time.
 */
module RegoCache {

  import opened Options
  import Runs

  datatype Key = Key(uid: string, resourceVersion: string, ruleHash: string)

  datatype Value = Value(edges: seq<string>)

  /** Where one call stands. Fallen: a waiter that found no value and goes on without the mutex. */
  datatype Phase =
    | Start
    | Locking
    | Inside
    | Following(leader: nat)
    | Rechecking
    | Fallen
    | Installing
    | Evaluating
    | Adding(value: Value)
    | Cleaning(result: Option<Value>)
    | Deleting(result: Option<Value>)
    | Finishing(result: Option<Value>)
    | Returned(result: Option<Value>)

  datatype Caller = Caller(key: Key, phase: Phase)

  /** `evaluated` records what error-free evaluations returned. */
  datatype Shared = Shared(lru: map<Key, Value>, mutex: Option<nat>, inflight: map<Key, nat>,
                           evaluated: set<(Key, Value)>)

  /** `fault`: some call unlocked the mutex without holding it, which ends the program or breaks its exclusion. */
  datatype State = State(callers: seq<Caller>, shared: Shared, fault: bool)

  datatype Op = Step(i: nat) | Evaluate(i: nat, result: Option<Value>) | Evict(key: Key)

  function Initial(keys: seq<Key>): State {
    State(seq(|keys|, i requires 0 <= i < |keys| => Caller(keys[i], Start)), Shared(map[], None, map[], {}), false)
  }

  datatype Effect = Effect(phase: Phase, shared: Shared, fault: bool)

  function Keep(phase: Phase, shared: Shared): Effect {
    Effect(phase, shared, false)
  }

  /** Lines 120 to 123: register as leader and unlock. */
  function Install(i: nat, key: Key, s: Shared): Effect {
    Effect(Evaluating, Shared(s.lru, None, s.inflight[key := i], s.evaluated), s.mutex != Some(i))
  }

  /** The next step of call i; `leaderDone` says whether the call it follows has finished its wait group. */
  function CallStep(i: nat, c: Caller, s: Shared, leaderDone: bool): Effect {
    match c.phase
    case Start => if c.key in s.lru then Keep(Returned(Some(s.lru[c.key])), s) else Keep(Locking, s)
    case Locking => if s.mutex == None then Keep(Inside, s.(mutex := Some(i))) else Keep(Locking, s)
    case Inside => if c.key in s.inflight then Keep(Following(s.inflight[c.key]), s.(mutex := None))
        else Keep(Installing, s)
    case Following(l) => if leaderDone then Keep(Rechecking, s) else Keep(c.phase, s)
    case Rechecking => if c.key in s.lru then Keep(Returned(Some(s.lru[c.key])), s) else Keep(Fallen, s)
    case Fallen => Install(i, c.key, s)
    case Installing => Install(i, c.key, s)
    case Evaluating => Keep(Evaluating, s)
    case Adding(v) => Keep(Cleaning(Some(v)), s.(lru := s.lru[c.key := v]))
    case Cleaning(r) => if s.mutex == None then Keep(Deleting(r), s.(mutex := Some(i))) else Keep(c.phase, s)
    case Deleting(r) => Keep(Finishing(r), Shared(s.lru, None, s.inflight - {c.key}, s.evaluated))
    case Finishing(r) => Keep(Returned(r), s)
    case Returned(_) => Keep(c.phase, s)
  }

  function EvaluateStep(c: Caller, s: Shared, result: Option<Value>): Effect {
    if c.phase != Evaluating then Keep(c.phase, s)
    else match result
         case None => Keep(Cleaning(None), s)
         case Some(v) => Keep(Adding(v), s.(evaluated := s.evaluated + {(c.key, v)}))
  }

  predicate LeaderDone(s: State, c: Caller) {
    c.phase.Following? && c.phase.leader < |s.callers| && s.callers[c.phase.leader].phase.Returned?
  }

  function After(s: State, i: nat, d: Effect): State
    requires i < |s.callers|
  {
    State(s.callers[i := Caller(s.callers[i].key, d.phase)], d.shared, d.fault)
  }

  function Apply(s: State, op: Op): State {
    if s.fault then s
    else match op
         case Step(i) =>
           if i < |s.callers| then After(s, i, CallStep(i, s.callers[i], s.shared, LeaderDone(s, s.callers[i]))) else s
         case Evaluate(i, result) =>
           if i < |s.callers| then After(s, i, EvaluateStep(s.callers[i], s.shared, result)) else s
         case Evict(k) => s.(shared := s.shared.(lru := s.shared.lru - {k}))
  }

  function Reached(keys: seq<Key>, ops: seq<Op>): State {
    Runs.Run(Apply, Initial(keys), ops)
  }

  // ---------------------------------------------------------------------------------
  // What is cached

  predicate Genuine(c: Caller, evaluated: set<(Key, Value)>) {
    match c.phase
    case Adding(v) => (c.key, v) in evaluated
    case Cleaning(r) => r.Some? ==> (c.key, r.value) in evaluated
    case Deleting(r) => r.Some? ==> (c.key, r.value) in evaluated
    case Finishing(r) => r.Some? ==> (c.key, r.value) in evaluated
    case Returned(r) => r.Some? ==> (c.key, r.value) in evaluated
    case _ => true
  }

  ghost predicate AllGenuine(s: State) {
    && (forall k | k in s.shared.lru :: (k, s.shared.lru[k]) in s.shared.evaluated)
    && (forall i | 0 <= i < |s.callers| :: Genuine(s.callers[i], s.shared.evaluated))
  }

  lemma StepGenuine(s: State, op: Op)
    requires AllGenuine(s)
    ensures AllGenuine(Apply(s, op))
  {
    var t := Apply(s, op);
    assert s.shared.evaluated <= t.shared.evaluated;
  }

  /** Every cached and every returned value came from an error-free evaluation of its key; errors are never cached. */
  lemma {:induction false} OnlyEvaluatedValues(keys: seq<Key>, ops: seq<Op>)
    ensures AllGenuine(Reached(keys, ops))
  {
    if ops != [] {
      OnlyEvaluatedValues(keys, ops[..|ops| - 1]);
      StepGenuine(Reached(keys, ops[..|ops| - 1]), ops[|ops| - 1]);
      Runs.RunLast(Apply, Initial(keys), ops);
    }
  }

  // ---------------------------------------------------------------------------------
  // Exclusion

  predicate OwnsMutex(p: Phase) {
    p.Inside? || p.Installing? || p.Deleting?
  }

  predicate InFlight(p: Phase) {
    p.Evaluating? || p.Adding? || p.Cleaning? || p.Deleting?
  }

  predicate Led(p: Phase) {
    InFlight(p) || p.Finishing? || p.Returned?
  }

  /** What the mutex and the map of evaluations say about one call. */
  ghost predicate Tracked(s: State, i: nat)
    requires i < |s.callers|
  {
    var c := s.callers[i];
    && (OwnsMutex(c.phase) <==> s.shared.mutex == Some(i))
    && (InFlight(c.phase) <==> c.key in s.shared.inflight && s.shared.inflight[c.key] == i)
    && (c.phase.Installing? ==> c.key !in s.shared.inflight)
    && (c.phase.Following? ==>
          c.phase.leader < |s.callers| && s.callers[c.phase.leader].key == c.key
              && Led(s.callers[c.phase.leader].phase))
  }

  ghost predicate InRange(s: State) {
    && (s.shared.mutex.Some? ==> s.shared.mutex.value < |s.callers|)
    && (forall k | k in s.shared.inflight ::
          s.shared.inflight[k] < |s.callers| && s.callers[s.shared.inflight[k]].key == k
              && InFlight(s.callers[s.shared.inflight[k]].phase))
  }

  ghost predicate Exclusive(s: State) {
    InRange(s) && forall i | 0 <= i < |s.callers| :: Tracked(s, i)
  }

  /** A step changes the mutex and the map only as the phase of its own call says. */
  ghost predicate Orderly(i: nat, c: Caller, s: Shared, d: Effect) {
    && d.shared.mutex == (if OwnsMutex(d.phase) then Some(i) else if OwnsMutex(c.phase) then None else s.mutex)
    && (OwnsMutex(d.phase) && !OwnsMutex(c.phase) ==> s.mutex == None)
    && d.shared.inflight == (if InFlight(d.phase) then s.inflight[c.key := i]
                             else if InFlight(c.phase) then s.inflight - {c.key} else s.inflight)
    && (InFlight(d.phase) && !InFlight(c.phase) ==> c.phase.Installing?)
    && (d.phase.Installing? ==> c.key !in d.shared.inflight)
    && (Led(c.phase) ==> Led(d.phase))
    && (d.phase.Following? ==> d.phase == c.phase || (c.key in s.inflight && d.phase.leader == s.inflight[c.key]))
  }

  lemma StepOrderly(s: State, i: nat)
    requires Exclusive(s) && i < |s.callers|
    requires !CallStep(i, s.callers[i], s.shared, LeaderDone(s, s.callers[i])).fault
    ensures Orderly(i, s.callers[i], s.shared, CallStep(i, s.callers[i], s.shared, LeaderDone(s, s.callers[i])))
  {
    assert Tracked(s, i);
  }

  lemma EvaluateOrderly(s: State, i: nat, result: Option<Value>)
    requires Exclusive(s) && i < |s.callers|
    ensures Orderly(i, s.callers[i], s.shared, EvaluateStep(s.callers[i], s.shared, result))
  {
    assert Tracked(s, i);
  }

  lemma OrderlyKeepsRange(s: State, i: nat, d: Effect)
    requires Exclusive(s) && i < |s.callers| && Orderly(i, s.callers[i], s.shared, d)
    ensures InRange(After(s, i, d))
  {
    var t := After(s, i, d);
    assert Tracked(s, i);
    forall k | k in t.shared.inflight
      ensures t.shared.inflight[k] < |t.callers| && t.callers[t.shared.inflight[k]].key == k
                && InFlight(t.callers[t.shared.inflight[k]].phase)
    {
      if k != s.callers[i].key { assert k in s.shared.inflight; }
    }
  }

  lemma OrderlyKeepsOther(s: State, i: nat, d: Effect, j: nat)
    requires Exclusive(s) && i < |s.callers| && j < |s.callers| && j != i && Orderly(i, s.callers[i], s.shared, d)
    ensures Tracked(After(s, i, d), j)
  {
    assert Tracked(s, i) && Tracked(s, j);
  }

  lemma OrderlyKeepsOwn(s: State, i: nat, d: Effect)
    requires Exclusive(s) && i < |s.callers| && Orderly(i, s.callers[i], s.shared, d)
    ensures Tracked(After(s, i, d), i)
  {
    assert Tracked(s, i);
  }

  lemma OrderlyKeepsExclusive(s: State, i: nat, d: Effect)
    requires Exclusive(s) && i < |s.callers| && Orderly(i, s.callers[i], s.shared, d)
    ensures Exclusive(After(s, i, d))
  {
    OrderlyKeepsRange(s, i, d);
    OrderlyKeepsOwn(s, i, d);
    forall j | 0 <= j < |s.callers| ensures Tracked(After(s, i, d), j) {
      if j != i { OrderlyKeepsOther(s, i, d, j); }
    }
  }

  lemma ApplyKeepsExclusive(s: State, op: Op)
    requires Exclusive(s) && !s.fault && !Apply(s, op).fault
    ensures Exclusive(Apply(s, op))
  {
    match op
    case Step(i) =>
      if i < |s.callers| {
        StepOrderly(s, i);
        OrderlyKeepsExclusive(s, i, CallStep(i, s.callers[i], s.shared, LeaderDone(s, s.callers[i])));
      }
    case Evaluate(i, result) =>
      if i < |s.callers| {
        EvaluateOrderly(s, i, result);
        OrderlyKeepsExclusive(s, i, EvaluateStep(s.callers[i], s.shared, result));
      }
    case Evict(k) =>
      var t := Apply(s, op);
      forall i | 0 <= i < |t.callers| ensures Tracked(t, i) { assert Tracked(s, i); }
  }

  /** On every run without a fault the mutex excludes and the map lists exactly the evaluations in flight. */
  lemma {:induction false} RunsExclude(keys: seq<Key>, ops: seq<Op>)
    requires !Reached(keys, ops).fault
    ensures Exclusive(Reached(keys, ops))
  {
    if ops != [] {
      Runs.RunLast(Apply, Initial(keys), ops);
      RunsExclude(keys, ops[..|ops| - 1]);
      ApplyKeepsExclusive(Reached(keys, ops[..|ops| - 1]), ops[|ops| - 1]);
    }
  }

  /** At most one evaluation of a key is in flight. */
  lemma OneEvaluationPerKey(keys: seq<Key>, ops: seq<Op>, i: nat, j: nat)
    requires !Reached(keys, ops).fault && i < |Reached(keys, ops).callers| && j < |Reached(keys, ops).callers|
    requires InFlight(Reached(keys, ops).callers[i].phase) && InFlight(Reached(keys, ops).callers[j].phase)
    requires Reached(keys, ops).callers[i].key == Reached(keys, ops).callers[j].key
    ensures i == j
  {
    RunsExclude(keys, ops);
    var s := Reached(keys, ops);
    assert Tracked(s, i) && Tracked(s, j);
  }

  // ---------------------------------------------------------------------------------
  // When the exclusion fails

  predicate FallenSteps(s: State, op: Op) {
    op.Step? && op.i < |s.callers| && s.callers[op.i].phase.Fallen?
  }

  /** A step goes wrong exactly when it is taken by a waiter that found no value. */
  lemma FaultExactlyWhenFallenSteps(keys: seq<Key>, ops: seq<Op>, op: Op)
    requires !Reached(keys, ops).fault
    ensures Apply(Reached(keys, ops), op).fault <==> FallenSteps(Reached(keys, ops), op)
  {
    RunsExclude(keys, ops);
    var s := Reached(keys, ops);
    if op.Step? && op.i < |s.callers| { assert Tracked(s, op.i); }
  }

  /** Every waiter finds the value of the call it waited for: none of them ever steps on without one. */
  ghost predicate WaitersFind(keys: seq<Key>, ops: seq<Op>)
    decreases |ops|
  {
    ops == [] || (WaitersFind(keys, ops[..|ops| - 1]) && !FallenSteps(Reached(keys, ops[..|ops| - 1]), ops[|ops| - 1]))
  }

  lemma {:induction false} NoFaultExactlyWhenWaitersFind(keys: seq<Key>, ops: seq<Op>)
    ensures !Reached(keys, ops).fault <==> WaitersFind(keys, ops)
    decreases |ops|
  {
    if ops != [] {
      NoFaultExactlyWhenWaitersFind(keys, ops[..|ops| - 1]);
      Runs.RunLast(Apply, Initial(keys), ops);
      if !Reached(keys, ops[..|ops| - 1]).fault { FaultExactlyWhenFallenSteps(keys, ops[..|ops| - 1], ops[|ops| - 1]); }
    }
  }

  predicate Benign(op: Op) {
    match op
    case Step(_) => true
    case Evaluate(_, result) => result.Some?
    case Evict(_) => false
  }

  predicate Answered(c: Caller, lru: map<Key, Value>) {
    match c.phase
    case Cleaning(_) => c.key in lru
    case Deleting(_) => c.key in lru
    case Finishing(_) => c.key in lru
    case Returned(_) => c.key in lru
    case Rechecking => c.key in lru
    case Fallen => false
    case _ => true
  }

  ghost predicate AllAnswered(s: State) {
    !s.fault && Exclusive(s) && forall i | 0 <= i < |s.callers| :: Answered(s.callers[i], s.shared.lru)
  }

  lemma StepAnswered(s: State, op: Op)
    requires AllAnswered(s) && Benign(op)
    ensures !Apply(s, op).fault
    ensures forall i | 0 <= i < |s.callers| :: Answered(Apply(s, op).callers[i], Apply(s, op).shared.lru)
  {
    var t := Apply(s, op);
    assert s.shared.lru.Keys <= t.shared.lru.Keys;
    if op.i < |s.callers| { assert Tracked(s, op.i); }
  }

  /** Without failed evaluations and without evictions every waiter finds its value, so nothing goes wrong. */
  lemma {:induction false} SafeWithoutFailures(keys: seq<Key>, ops: seq<Op>)
    requires forall op | op in ops :: Benign(op)
    ensures AllAnswered(Reached(keys, ops))
  {
    if ops != [] {
      var before := Reached(keys, ops[..|ops| - 1]);
      SafeWithoutFailures(keys, ops[..|ops| - 1]);
      Runs.RunLast(Apply, Initial(keys), ops);
      StepAnswered(before, ops[|ops| - 1]);
      ApplyKeepsExclusive(before, ops[|ops| - 1]);
    }
  }

  // ---------------------------------------------------------------------------------
  // The run that goes wrong

  lemma Extend(keys: seq<Key>, ops: seq<Op>, op: Op) returns (longer: seq<Op>)
    ensures longer == ops + [op] && Reached(keys, longer) == Apply(Reached(keys, ops), op)
  {
    longer := ops + [op];
    Runs.RunLast(Apply, Initial(keys), longer);
    assert longer[..|ops|] == ops;
  }

  /** Two calls of one key: the first leads, the second waits. */
  lemma OneLeadsOneWaits(key: Key) returns (ops: seq<Op>)
    ensures Reached([key, key], ops)
            == State([Caller(key, Evaluating), Caller(key, Following(0))], Shared(map[], None, map[key := 0], {}),
               false)
    ensures forall op | op in ops :: op.Step?
  {
    var keys := [key, key];
    ops := Extend(keys, [], Step(0));
    ops := Extend(keys, ops, Step(1));
    assert Reached(keys, ops).callers == [Caller(key, Locking), Caller(key, Locking)];
    ops := Extend(keys, ops, Step(0));
    ops := Extend(keys, ops, Step(0));
    ops := Extend(keys, ops, Step(0));
    assert Reached(keys, ops).callers == [Caller(key, Evaluating), Caller(key, Locking)];
    ops := Extend(keys, ops, Step(1));
    ops := Extend(keys, ops, Step(1));
  }

  /** When the leader's evaluation fails, the waiter reaches the installation of lines 120 to 123 without the mutex. */
  lemma FailedLeaderFaults(key: Key) returns (ops: seq<Op>)
    ensures Reached([key, key], ops).fault
  {
    var keys := [key, key];
    ops := OneLeadsOneWaits(key);
    ops := Extend(keys, ops, Evaluate(0, None));
    ops := Extend(keys, ops, Step(0));
    ops := Extend(keys, ops, Step(0));
    ops := Extend(keys, ops, Step(0));
    assert Reached(keys, ops).callers == [Caller(key, Returned(None)), Caller(key, Following(0))];
    ops := Extend(keys, ops, Step(1));
    ops := Extend(keys, ops, Step(1));
    assert Reached(keys, ops).callers[1] == Caller(key, Fallen);
    ops := Extend(keys, ops, Step(1));
  }
}
