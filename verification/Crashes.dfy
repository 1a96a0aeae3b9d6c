/**
  Running a durable operation that may be cut short.

  An operation is the sequence of its effects in program order; each effect is
  atomic.  `budget` is the number of effects that take place before the process
  dies (or before one of them fails), so quantifying over the budget quantifies
  over every point at which the operation can stop.
 */
module Crashes {

  function RunFor<S, O>(exec: (S, O) -> S, state: S, ops: seq<O>, budget: nat): S
    decreases |ops|
  {
    if ops == [] || budget == 0 then state
    else RunFor(exec, exec(state, ops[0]), ops[1..], budget - 1)
  }

  function RunAll<S, O>(exec: (S, O) -> S, state: S, ops: seq<O>): S {
    RunFor(exec, state, ops, |ops|)
  }

  lemma RunForCons<S, O>(exec: (S, O) -> S, state: S, op: O, rest: seq<O>, budget: nat)
    ensures RunFor(exec, state, [op] + rest, budget)
         == if budget == 0 then state else RunFor(exec, exec(state, op), rest, budget - 1)
  {
    assert ([op] + rest)[1..] == rest;
  }

  lemma RunAllCons<S, O>(exec: (S, O) -> S, state: S, op: O, rest: seq<O>)
    ensures RunAll(exec, state, [op] + rest) == RunAll(exec, exec(state, op), rest)
  {
    RunForCons(exec, state, op, rest, |rest| + 1);
  }

  lemma RunAllNone<S, O>(exec: (S, O) -> S, state: S)
    ensures RunAll(exec, state, []) == state
  {
  }

  lemma RunAllOne<S, O>(exec: (S, O) -> S, state: S, op: O)
    ensures RunAll(exec, state, [op]) == exec(state, op)
  {
    assert [op] + [] == [op];
    RunAllCons(exec, state, op, []);
  }

  lemma RunForThree<S, O>(exec: (S, O) -> S, state: S, a: O, b: O, c: O, rest: seq<O>, budget: nat)
    ensures RunFor(exec, state, [a] + ([b] + ([c] + rest)), budget)
         == if budget == 0 then state
            else if budget == 1 then exec(state, a)
            else if budget == 2 then exec(exec(state, a), b)
            else RunFor(exec, exec(exec(exec(state, a), b), c), rest, budget - 3)
  {
    RunForCons(exec, state, a, [b] + ([c] + rest), budget);
    if budget > 0 {
      RunForCons(exec, exec(state, a), b, [c] + rest, budget - 1);
      if budget > 1 {
        RunForCons(exec, exec(exec(state, a), b), c, rest, budget - 2);
      }
    }
  }

  /** What every effect keeps, the operation keeps wherever it stops. */
  lemma {:induction false} RunForKeeps<S(!new), O(!new)>(exec: (S, O) -> S, kept: S -> bool, state: S, ops: seq<O>, budget: nat)
    requires kept(state)
    requires forall s, o :: kept(s) && o in ops ==> kept(exec(s, o))
    ensures kept(RunFor(exec, state, ops, budget))
    decreases |ops|
  {
    if ops != [] && budget > 0 {
      assert ops[0] in ops;
      RunForKeeps(exec, kept, exec(state, ops[0]), ops[1..], budget - 1);
    }
  }

  /** A spent operation is the same as any larger budget. */
  lemma {:induction false} RunForSaturates<S, O>(exec: (S, O) -> S, state: S, ops: seq<O>, budget: nat)
    requires |ops| <= budget
    ensures RunFor(exec, state, ops, budget) == RunAll(exec, state, ops)
    decreases |ops|
  {
    if ops != [] {
      RunForSaturates(exec, exec(state, ops[0]), ops[1..], budget - 1);
    }
  }

  /** Stopping somewhere in a sequence of two operations stops inside the first, or inside the second. */
  lemma {:induction false} RunForConcat<S, O>(exec: (S, O) -> S, state: S, first: seq<O>, second: seq<O>, budget: nat)
    ensures RunFor(exec, state, first + second, budget)
         == if budget <= |first| then RunFor(exec, state, first, budget)
            else RunFor(exec, RunAll(exec, state, first), second, budget - |first|)
    decreases |first|
  {
    if first == [] {
      assert first + second == second;
    } else if budget > 0 {
      assert (first + second)[1..] == first[1..] + second;
      RunForConcat(exec, exec(state, first[0]), first[1..], second, budget - 1);
    }
  }

  lemma RunAllConcat<S, O>(exec: (S, O) -> S, state: S, first: seq<O>, second: seq<O>)
    ensures RunAll(exec, state, first + second) == RunAll(exec, RunAll(exec, state, first), second)
  {
    RunForConcat(exec, state, first, second, |first| + |second|);
    if second == [] {
      assert first + second == first;
    }
  }
}
