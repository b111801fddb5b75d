/** What one call of the evaluation cache returns, when it evaluates at all, and that calls never wait in a circle. */
module RegoLaws {

  import opened Options
  import opened RegoCache
  import Runs

  /** The outcome of the evaluation that call i made along a run, if it made one. */
  function Outcome(keys: seq<Key>, ops: seq<Op>, i: nat): Option<Option<Value>>
    decreases |ops|
  {
    if ops == [] then None
    else
      var init, last := ops[..|ops| - 1], ops[|ops| - 1];
      var s := Reached(keys, init);
      if last.Evaluate? && last.i == i && !s.fault && i < |s.callers| && s.callers[i].phase.Evaluating?
      then Some(last.result) else Outcome(keys, init, i)
  }

  /** How far a call is, and what it evaluated, belong together. */
  predicate Faithful(p: Phase, o: Option<Option<Value>>) {
    match p
    case Adding(v) => o == Some(Some(v))
    case Cleaning(r) => o == Some(r)
    case Deleting(r) => o == Some(r)
    case Finishing(r) => o == Some(r)
    case Returned(r) => o == Some(r) || (o == None && r.Some?)
    case _ => o == None
  }

  lemma {:induction false} SameCallers(keys: seq<Key>, ops: seq<Op>)
    ensures |Reached(keys, ops).callers| == |keys|
    ensures forall i | 0 <= i < |keys| :: Reached(keys, ops).callers[i].key == keys[i]
  {
    if ops != [] {
      SameCallers(keys, ops[..|ops| - 1]);
      Runs.RunLast(Apply, Initial(keys), ops);
    }
  }

  lemma {:induction false} RunFaithful(keys: seq<Key>, ops: seq<Op>, i: nat)
    requires i < |keys|
    ensures |Reached(keys, ops).callers| == |keys|
    ensures Faithful(Reached(keys, ops).callers[i].phase, Outcome(keys, ops, i))
    decreases |ops|
  {
    SameCallers(keys, ops);
    if ops != [] {
      SameCallers(keys, ops[..|ops| - 1]);
      RunFaithful(keys, ops[..|ops| - 1], i);
      Runs.RunLast(Apply, Initial(keys), ops);
    }
  }

  /** A call that evaluated returns the outcome of its own evaluation, error included; a call that did not evaluate
      returns a value. */
  lemma EvaluationIsReturned(keys: seq<Key>, ops: seq<Op>, i: nat)
    requires i < |keys| && |Reached(keys, ops).callers| == |keys| && Reached(keys, ops).callers[i].phase.Returned?
    ensures var r := Reached(keys, ops).callers[i].phase.result;
            match Outcome(keys, ops, i)
            case Some(outcome) => r == outcome
            case None => r.Some?
  {
    RunFaithful(keys, ops, i);
  }

  /** A call whose key is cached when it looks, at first or after its wait, returns the cached value with that step. */
  lemma CachedKeyIsAnswered(keys: seq<Key>, ops: seq<Op>, i: nat)
    requires i < |keys| && |Reached(keys, ops).callers| == |keys| && !Reached(keys, ops).fault
    requires Reached(keys, ops).callers[i].phase in {Start, Rechecking} && keys[i] in Reached(keys, ops).shared.lru
    ensures var s, t := Reached(keys, ops), Reached(keys, ops + [Step(i)]);
            && |t.callers| == |keys| && t.callers[i].phase == Returned(Some(s.shared.lru[keys[i]]))
            && t.shared == s.shared && Outcome(keys, ops + [Step(i)], i) == None
  {
    SameCallers(keys, ops);
    RunFaithful(keys, ops, i);
    Runs.RunLast(Apply, Initial(keys), ops + [Step(i)]);
    assert (ops + [Step(i)])[..|ops|] == ops;
  }

  /** The outcome added last for a key, unless the key was evicted since. */
  function Held(keys: seq<Key>, ops: seq<Op>, k: Key): Option<Value>
    decreases |ops|
  {
    if ops == [] then None
    else
      var init, last := ops[..|ops| - 1], ops[|ops| - 1];
      var s := Reached(keys, init);
      if s.fault then Held(keys, init, k)
      else if last == Evict(k) then None
      else if last.Step? && last.i < |keys| && keys[last.i] == k && last.i < |s.callers|
          && s.callers[last.i].phase.Adding?
      then match Outcome(keys, init, last.i)
           case Some(outcome) => outcome
           case None => None
      else Held(keys, init, k)
  }

  function Lookup(lru: map<Key, Value>, k: Key): Option<Value> {
    if k in lru then Some(lru[k]) else None
  }

  /** The cache holds exactly what was evaluated last and not evicted since: successes are cached, failures are not. */
  lemma {:induction false} CacheIsItsHistory(keys: seq<Key>, ops: seq<Op>, k: Key)
    ensures Lookup(Reached(keys, ops).shared.lru, k) == Held(keys, ops, k)
    decreases |ops|
  {
    if ops != [] {
      var init, last := ops[..|ops| - 1], ops[|ops| - 1];
      CacheIsItsHistory(keys, init, k);
      SameCallers(keys, init);
      Runs.RunLast(Apply, Initial(keys), ops);
      if last.Step? && last.i < |keys| { RunFaithful(keys, init, last.i); }
    }
  }

  // ---------------------------------------------------------------------------------
  // Progress

  /** The step of the call that keeps call i waiting, or of call i itself; an evaluation yields `result`. */
  function Mover(s: State, i: nat, result: Option<Value>): Op
    requires i < |s.callers|
  {
    var p := s.callers[i].phase;
    if p.Evaluating? then Evaluate(i, result)
    else if (p.Locking? || p.Cleaning?) && s.shared.mutex.Some? then Step(s.shared.mutex.value)
    else Step(i)
  }

  lemma MoverMoves(s: State, i: nat, result: Option<Value>)
    requires Exclusive(s) && !s.fault && i < |s.callers|
    requires !s.callers[i].phase.Returned? && (s.callers[i].phase.Following? ==> LeaderDone(s, s.callers[i]))
    ensures Apply(s, Mover(s, i, result)) != s
  {
    var op := Mover(s, i, result);
    assert Tracked(s, i) && op.i < |s.callers| && Tracked(s, op.i);
    assert Apply(s, op).callers[op.i].phase != s.callers[op.i].phase;
  }

  /** While a call has not returned, some call can take a step: no interleaving deadlocks. */
  lemma NeverStuck(keys: seq<Key>, ops: seq<Op>, i: nat, result: Option<Value>) returns (op: Op)
    requires !Reached(keys, ops).fault && i < |Reached(keys, ops).callers|
    requires !Reached(keys, ops).callers[i].phase.Returned?
    ensures !op.Evict? && Apply(Reached(keys, ops), op) != Reached(keys, ops)
  {
    RunsExclude(keys, ops);
    var s := Reached(keys, ops);
    assert Tracked(s, i);
    var p := s.callers[i].phase;
    var j := if p.Following? && !LeaderDone(s, s.callers[i]) then p.leader else i;
    op := Mover(s, j, result);
    MoverMoves(s, j, result);
  }
}
