/** Runs of a state machine: its step function folded over any list of operations. */
module Runs {

  function Run<S, O>(step: (S, O) -> S, s: S, ops: seq<O>): S {
    if ops == [] then s else step(Run(step, s, ops[..|ops| - 1]), ops[|ops| - 1])
  }

  lemma {:induction false} RunFirst<S, O>(step: (S, O) -> S, s: S, op: O, ops: seq<O>)
    ensures Run(step, s, [op] + ops) == Run(step, step(s, op), ops)
    decreases |ops|
  {
    if ops == [] {
      assert [op] + ops == [op] && [op][..0] == [];
      assert Run(step, s, []) == s;
    } else {
      var n := |ops| - 1;
      RunFirst(step, s, op, ops[..n]);
      assert ([op] + ops)[..n + 1] == [op] + ops[..n];
    }
  }

  lemma {:induction false} RunAppend<S, O>(step: (S, O) -> S, s: S, first: seq<O>, ops: seq<O>)
    ensures Run(step, s, first + ops) == Run(step, Run(step, s, first), ops)
    decreases |ops|
  {
    if ops == [] {
      assert first + ops == first;
    } else {
      var n := |ops| - 1;
      RunAppend(step, s, first, ops[..n]);
      assert (first + ops)[..|first| + n] == first + ops[..n];
    }
  }

  /** The run without its last operation, and that operation. */
  lemma RunLast<S, O>(step: (S, O) -> S, s: S, ops: seq<O>)
    requires ops != []
    ensures Run(step, s, ops) == step(Run(step, s, ops[..|ops| - 1]), ops[|ops| - 1])
  {
  }
}
