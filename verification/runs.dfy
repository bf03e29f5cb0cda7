/** Runs of a state machine given by its step function, and sequences of steps that belong to other calls. */
module Runs {

  function Run<S, A>(step: (S, A) -> S, s: S, actions: seq<A>): S
    decreases |actions|
  {
    if actions == [] then s else Run(step, step(s, actions[0]), actions[1..])
  }

  lemma {:induction false} RunConcat<S, A>(step: (S, A) -> S, s: S, a: seq<A>, b: seq<A>)
    ensures Run(step, s, a + b) == Run(step, Run(step, s, a), b)
    decreases |a|
  {
    if a == [] {
      assert a + b == b;
    } else {
      assert (a + b)[1..] == a[1..] + b;
      RunConcat(step, step(s, a[0]), a[1..], b);
    }
  }

  lemma RunOne<S, A>(step: (S, A) -> S, s: S, a: A)
    ensures Run(step, s, [a]) == step(s, a)
  {
    assert [a][1..] == [];
  }

  lemma RunSnoc<S, A>(step: (S, A) -> S, s: S, a: seq<A>, last: A)
    ensures Run(step, s, a + [last]) == step(Run(step, s, a), last)
  {
    RunConcat(step, s, a, [last]);
    RunOne(step, Run(step, s, a), last);
  }

  /** No step belongs to this call. */
  predicate Others<A>(owner: A -> nat, actions: seq<A>, h: nat) {
    forall i :: 0 <= i < |actions| ==> owner(actions[i]) != h
  }

  lemma OthersConcat<A>(owner: A -> nat, a: seq<A>, b: seq<A>, h: nat)
    ensures Others(owner, a + b, h) <==> Others(owner, a, h) && Others(owner, b, h)
  {
    if Others(owner, a + b, h) {
      assert forall i :: 0 <= i < |a| ==> a[i] == (a + b)[i];
      assert forall i :: 0 <= i < |b| ==> b[i] == (a + b)[|a| + i];
    }
  }
}
