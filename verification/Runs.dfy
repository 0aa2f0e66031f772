/** Runs of a labelled transition system, given by its step function: the state
    that a label leads to, if it is enabled. */
module Runs {
  import opened Names

  type Steps<!S, !L> = (S, L) -> Option<S>

  /** `s'` is reached from `s` by `labels`. */
  ghost predicate RunsTo<S, L>(step: Steps<S, L>, s: S, labels: seq<L>, s': S)
    decreases |labels|
  {
    if labels == [] then s == s'
    else step(s, labels[0]).Some? && RunsTo(step, step(s, labels[0]).value, labels[1..], s')
  }

  ghost predicate Reaches<S, L(!new)>(step: Steps<S, L>, s: S, s': S) {
    exists labels :: RunsTo(step, s, labels, s')
  }

  lemma {:induction false} Join<S, L>(step: Steps<S, L>, s: S, xs: seq<L>, m: S, ys: seq<L>, t: S)
    requires RunsTo(step, s, xs, m) && RunsTo(step, m, ys, t)
    ensures RunsTo(step, s, xs + ys, t)
    decreases |xs|
  {
    if xs == [] {
      assert xs + ys == ys;
    } else {
      Join(step, step(s, xs[0]).value, xs[1..], m, ys, t);
      assert (xs + ys)[1..] == xs[1..] + ys;
    }
  }

  lemma After<S, L(!new)>(step: Steps<S, L>, s: S, p: S, l: L, labels: seq<L>, t: S)
    requires Reaches(step, s, p) && step(p, l).Some? && RunsTo(step, step(p, l).value, labels, t)
    ensures Reaches(step, s, t)
  {
    var xs :| RunsTo(step, s, xs, p);
    assert ([l] + labels)[1..] == labels;
    Join(step, s, xs, p, [l] + labels, t);
  }

  lemma Next<S, L(!new)>(step: Steps<S, L>, s: S, t: S, l: L) returns (t': S)
    requires Reaches(step, s, t) && step(t, l).Some?
    ensures t' == step(t, l).value && Reaches(step, s, t')
  {
    t' := step(t, l).value;
    After(step, s, t, l, [], t');
  }
}
