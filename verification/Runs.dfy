/** Runs of a state machine given by its step relation `next(before, step, after)`. */
module Runs {

  /** The states a run passes through and the steps between them. */
  ghost predicate IsRun<S, T>(next: (S, T, S) -> bool, states: seq<S>, steps: seq<T>) {
    && |states| == |steps| + 1
    && forall i | 0 <= i < |steps| :: next(states[i], steps[i], states[i + 1])
  }

  lemma RunPrefix<S, T>(next: (S, T, S) -> bool, states: seq<S>, steps: seq<T>, k: nat)
    requires IsRun(next, states, steps) && k <= |steps|
    ensures IsRun(next, states[..k + 1], steps[..k])
  {
    forall i | 0 <= i < k ensures next(states[..k + 1][i], steps[..k][i], states[..k + 1][i + 1]) {
      assert next(states[i], steps[i], states[i + 1]);
    }
  }

  ghost predicate Leads<S(!new), T>(next: (S, T, S) -> bool, from: S, steps: seq<T>, to: S) {
    exists states :: IsRun(next, states, steps) && states[0] == from && states[|states| - 1] == to
  }

  ghost predicate Connects<S(!new), T(!new)>(next: (S, T, S) -> bool, from: S, to: S) {
    exists steps :: Leads(next, from, steps, to)
  }

  /** Every step keeps `p`. */
  ghost predicate Kept<S(!new), T(!new)>(next: (S, T, S) -> bool, p: S -> bool) {
    forall s, step, t | p(s) && next(s, step, t) :: p(t)
  }

  lemma {:induction false} RunKeeps<S(!new), T(!new)>(next: (S, T, S) -> bool, p: S -> bool, states: seq<S>,
                                                      steps: seq<T>)
    requires IsRun(next, states, steps) && Kept(next, p) && p(states[0])
    ensures p(states[|states| - 1])
    decreases |steps|
  {
    if steps != [] {
      var n := |steps| - 1;
      RunKeeps(next, p, states[..n + 1], steps[..n]);
      assert next(states[n], steps[n], states[n + 1]);
    }
  }

  /** What every step keeps holds at the end of every run that starts with it. */
  lemma LeadsKeeps<S(!new), T(!new)>(next: (S, T, S) -> bool, p: S -> bool, from: S, steps: seq<T>, to: S)
    requires Leads(next, from, steps, to) && Kept(next, p) && p(from)
    ensures p(to)
  {
    var states :| IsRun(next, states, steps) && states[0] == from && states[|states| - 1] == to;
    RunKeeps(next, p, states, steps);
  }

  /** Every step keeps `p`, which may also speak of the steps so far. */
  ghost predicate KeptWithPast<S(!new), T(!new)>(next: (S, T, S) -> bool, p: (seq<T>, S) -> bool) {
    forall past, s, step, t | p(past, s) && next(s, step, t) :: p(past + [step], t)
  }

  lemma {:induction false} RunKeepsWithPast<S(!new), T(!new)>(next: (S, T, S) -> bool, p: (seq<T>, S) -> bool,
                                                              states: seq<S>, steps: seq<T>)
    requires IsRun(next, states, steps) && KeptWithPast(next, p) && p([], states[0])
    ensures p(steps, states[|states| - 1])
    decreases |steps|
  {
    if steps == [] {
      assert steps == [];
    } else {
      var n := |steps| - 1;
      RunKeepsWithPast(next, p, states[..n + 1], steps[..n]);
      assert next(states[n], steps[n], states[n + 1]);
      assert steps[..n] + [steps[n]] == steps;
    }
  }

  lemma LeadsKeepsWithPast<S(!new), T(!new)>(next: (S, T, S) -> bool, p: (seq<T>, S) -> bool, from: S, steps: seq<T>,
                             to: S)
    requires Leads(next, from, steps, to) && KeptWithPast(next, p) && p([], from)
    ensures p(steps, to)
  {
    var states :| IsRun(next, states, steps) && states[0] == from && states[|states| - 1] == to;
    RunKeepsWithPast(next, p, states, steps);
  }

  lemma ConnectsKeeps<S(!new), T(!new)>(next: (S, T, S) -> bool, p: S -> bool, from: S, to: S)
    requires Connects(next, from, to) && Kept(next, p) && p(from)
    ensures p(to)
  {
    var steps :| Leads(next, from, steps, to);
    LeadsKeeps(next, p, from, steps, to);
  }

  lemma LeadsSelf<S(!new), T>(next: (S, T, S) -> bool, s: S)
    ensures Leads(next, s, [], s)
  {
    assert IsRun(next, [s], []);
  }

  lemma LeadsOneMore<S(!new), T>(next: (S, T, S) -> bool, from: S, steps: seq<T>, s: S, step: T, t: S)
    requires Leads(next, from, steps, s) && next(s, step, t)
    ensures Leads(next, from, steps + [step], t)
  {
    var states :| IsRun(next, states, steps) && states[0] == from && states[|states| - 1] == s;
    var longer := states + [t];
    assert IsRun(next, longer, steps + [step]) by {
      forall i | 0 <= i < |steps + [step]| ensures next(longer[i], (steps + [step])[i], longer[i + 1]) {
        if i < |steps| {
          assert next(states[i], steps[i], states[i + 1]);
        }
      }
    }
  }

  lemma ConnectsSelf<S(!new), T(!new)>(next: (S, T, S) -> bool, s: S)
    ensures Connects(next, s, s)
  {
    LeadsSelf(next, s);
  }

  lemma ConnectsOneMore<S(!new), T(!new)>(next: (S, T, S) -> bool, from: S, s: S, step: T, t: S)
    requires Connects(next, from, s) && next(s, step, t)
    ensures Connects(next, from, t)
  {
    var steps :| Leads(next, from, steps, s);
    LeadsOneMore(next, from, steps, s, step, t);
  }
}
