/** Runs of a transition system given by a total step function: every sequence of labels is a
    run.  What each step keeps, every run keeps. */
module Runs {
  function Fold<S, L>(step: (S, L) -> S, s: S, ls: seq<L>): S {
    if ls == [] then s else step(Fold(step, s, ls[..|ls| - 1]), ls[|ls| - 1])
  }

  lemma {:induction false} FoldConcat<S, L>(step: (S, L) -> S, s: S, a: seq<L>, b: seq<L>)
    ensures Fold(step, s, a + b) == Fold(step, Fold(step, s, a), b)
  {
    if b == [] {
      assert a + b == a;
    } else {
      assert (a + b)[..|a + b| - 1] == a + b[..|b| - 1];
      FoldConcat(step, s, a, b[..|b| - 1]);
    }
  }

  lemma FoldOne<S, L>(step: (S, L) -> S, s: S, l: L)
    ensures Fold(step, s, [l]) == step(s, l)
  {
    assert [l][..0] == [];
  }

  lemma FoldAround<S, L>(step: (S, L) -> S, s: S, first: L, ls: seq<L>, last: L)
    ensures Fold(step, s, [first] + ls + [last]) == step(Fold(step, step(s, first), ls), last)
  {
    var all := [first] + ls + [last];
    assert all[..|all| - 1] == [first] + ls;
    FoldConcat(step, s, [first], ls);
    assert [first][..0] == [];
  }

  lemma FoldStep<S, L>(step: (S, L) -> S, s: S, ls: seq<L>, k: nat)
    requires k < |ls|
    ensures Fold(step, s, ls[..k + 1]) == step(Fold(step, s, ls[..k]), ls[k])
  {
    assert ls[..k + 1][..k] == ls[..k];
  }

  /** Every label of the run is issued in a state that meets `allowed`. */
  ghost predicate AllAlong<S(!new), L(!new)>(step: (S, L) -> S, s: S, ls: seq<L>, allowed: (S, L) -> bool) {
    forall i | 0 <= i < |ls| :: allowed(Fold(step, s, ls[..i]), ls[i])
  }

  ghost predicate Kept<S(!new), L(!new)>(step: (S, L) -> S, allowed: (S, L) -> bool, inv: S -> bool) {
    forall s, l :: inv(s) && allowed(s, l) ==> inv(step(s, l))
  }

  /** Every label from the i-th to the k-th is issued in a state that meets `allowed`. */
  ghost predicate AllBetween<S(!new), L(!new)>(step: (S, L) -> S, s: S, ls: seq<L>, allowed: (S, L) -> bool, i: nat, k: nat) {
    i <= k <= |ls| && forall x | i <= x < k :: allowed(Fold(step, s, ls[..x]), ls[x])
  }

  /** What every allowed step keeps holds as long as steps are allowed. */
  lemma {:induction false} KeptBetween<S(!new), L(!new)>(step: (S, L) -> S, s: S, ls: seq<L>, allowed: (S, L) -> bool, inv: S -> bool, i: nat, k: nat)
    requires AllBetween(step, s, ls, allowed, i, k) && Kept(step, allowed, inv)
    requires inv(Fold(step, s, ls[..i]))
    ensures inv(Fold(step, s, ls[..k]))
  {
    if i < k {
      KeptBetween(step, s, ls, allowed, inv, i, k - 1);
      FoldStep(step, s, ls, k - 1);
    }
  }

  lemma KeptThroughout<S(!new), L(!new)>(step: (S, L) -> S, s: S, ls: seq<L>, allowed: (S, L) -> bool, inv: S -> bool)
    requires AllAlong(step, s, ls, allowed) && Kept(step, allowed, inv) && inv(s)
    ensures inv(Fold(step, s, ls))
  {
    assert ls[..0] == [] && ls[..|ls|] == ls;
    KeptBetween(step, s, ls, allowed, inv, 0, |ls|);
  }

  lemma Extended<S(!new), L(!new)>(step: (S, L) -> S, s: S, ls: seq<L>, allowed: (S, L) -> bool, l: L)
    requires AllAlong(step, s, ls, allowed) && allowed(Fold(step, s, ls), l)
    ensures AllAlong(step, s, ls + [l], allowed)
    ensures Fold(step, s, ls + [l]) == step(Fold(step, s, ls), l)
  {
    var more := ls + [l];
    assert more[..|more| - 1] == ls;
    forall i | 0 <= i < |more| ensures allowed(Fold(step, s, more[..i]), more[i]) {
      assert i < |ls| ==> more[..i] == ls[..i];
    }
  }

  // ------------------------------------------------------------------------- refinement

  /** From states that meet `inv`, each step of the one system is, seen through `view`, the step
      of the other that `image` names. */
  ghost predicate Simulates<S(!new), L(!new), T(!new), M(!new)>(
    step: (S, L) -> S, coarse: (T, M) -> T, view: S -> T, image: (S, L) -> M, inv: S -> bool)
  {
    forall s, l :: inv(s) ==> inv(step(s, l)) && view(step(s, l)) == coarse(view(s), image(s, l))
  }

  ghost function Image<S, L, M>(step: (S, L) -> S, image: (S, L) -> M, s: S, ls: seq<L>): seq<M> {
    seq(|ls|, i requires 0 <= i < |ls| => image(Fold(step, s, ls[..i]), ls[i]))
  }

  /** Then the image of every run goes through the same states. */
  lemma {:induction false} SimulatesRun<S(!new), L(!new), T(!new), M(!new)>(
    step: (S, L) -> S, coarse: (T, M) -> T, view: S -> T, image: (S, L) -> M, inv: S -> bool, s: S, ls: seq<L>, k: nat)
    requires Simulates(step, coarse, view, image, inv) && inv(s) && k <= |ls|
    ensures inv(Fold(step, s, ls[..k]))
    ensures view(Fold(step, s, ls[..k])) == Fold(coarse, view(s), Image(step, image, s, ls)[..k])
  {
    if k > 0 {
      SimulatesRun(step, coarse, view, image, inv, s, ls, k - 1);
      FoldStep(step, s, ls, k - 1);
      FoldStep(coarse, view(s), Image(step, image, s, ls), k - 1);
    }
  }

  // ------------------------------------------------------------------ runs with their states

  ghost predicate Linked<S, L>(step: (S, L) -> S, states: seq<S>, labels: seq<L>, i: nat) {
    i < |labels| < |states| && states[i + 1] == step(states[i], labels[i])
  }

  /** Each state follows from the one before by the label between them. */
  ghost predicate Chain<S, L>(step: (S, L) -> S, origin: S, states: seq<S>, labels: seq<L>) {
    && |states| == |labels| + 1 && states[0] == origin
    && forall i | 0 <= i < |labels| :: Linked(step, states, labels, i)
  }

  lemma ChainExtends<S, L>(step: (S, L) -> S, origin: S, states: seq<S>, labels: seq<L>, l: L)
    requires Chain(step, origin, states, labels)
    ensures Chain(step, origin, states + [step(states[|labels|], l)], labels + [l])
  {
    var more, states' := labels + [l], states + [step(states[|labels|], l)];
    forall i | 0 <= i < |more| ensures Linked(step, states', more, i) {
      assert i < |labels| ==> Linked(step, states, labels, i);
    }
  }

  /** A chain is a run: its last state is the one the labels lead to. */
  lemma {:induction false} ChainIsRun<S, L>(step: (S, L) -> S, origin: S, states: seq<S>, labels: seq<L>)
    requires Chain(step, origin, states, labels)
    ensures states[|labels|] == Fold(step, origin, labels)
  {
    if labels != [] {
      var front, front' := states[..|labels|], labels[..|labels| - 1];
      forall i | 0 <= i < |front'| ensures Linked(step, front, front', i) {
        assert Linked(step, states, labels, i);
      }
      ChainIsRun(step, origin, front, front');
      assert Linked(step, states, labels, |labels| - 1);
    }
  }
}
