/** Runs of a state machine, and the rule that what every step keeps every run keeps. */
module Runs {
  function RunAll<S, O>(step: (S, O) -> S, s: S, ops: seq<O>): S
    decreases |ops|
  {
    if ops == [] then s else RunAll(step, step(s, ops[0]), ops[1..])
  }

  lemma {:induction false} RunKeeps<S(!new), O(!new)>(step: (S, O) -> S, ok: O -> bool, inv: S -> bool, s: S, ops: seq<O>)
    requires inv(s) && forall i | 0 <= i < |ops| :: ok(ops[i])
    requires forall t, o :: inv(t) && ok(o) ==> inv(step(t, o))
    ensures inv(RunAll(step, s, ops))
    decreases |ops|
  {
    if ops != [] {
      assert inv(step(s, ops[0]));
      RunKeeps(step, ok, inv, step(s, ops[0]), ops[1..]);
    }
  }

  lemma {:induction false} RunAllConcat<S, O>(step: (S, O) -> S, s: S, a: seq<O>, b: seq<O>)
    ensures RunAll(step, s, a + b) == RunAll(step, RunAll(step, s, a), b)
    decreases |a|
  {
    if |a| == 0 {
      assert a + b == b;
    } else {
      assert (a + b)[1..] == a[1..] + b;
      RunAllConcat(step, step(s, a[0]), a[1..], b);
    }
  }

  lemma {:induction false} RunAllOne<S, O>(step: (S, O) -> S, s: S, o: O)
    ensures RunAll(step, s, [o]) == step(s, o)
  {
    assert [o][1..] == [];
    assert RunAll(step, step(s, o), []) == step(s, o);
  }

  /** What holds of no operations, and of one more whenever it holds of some, holds of all. */
  lemma {:induction false} AllSequences<O(!new)>(holds: seq<O> -> bool, ops: seq<O>)
    requires holds([])
    requires forall a, o :: holds(a) ==> holds(a + [o])
    ensures holds(ops)
    decreases |ops|
  {
    if |ops| == 0 {
      assert ops == [];
    } else {
      var n := |ops| - 1;
      AllSequences(holds, ops[..n]);
      assert holds(ops[..n] + [ops[n]]);
      assert ops[..n] + [ops[n]] == ops;
    }
  }
}
