/** Runs of a step function: the vocabulary shared by the protocol models. */
module Schedules {

  function Run<W, A>(next: (W, A) -> W, w: W, schedule: seq<A>): W
    decreases |schedule|
  {
    if schedule == [] then w else Run(next, next(w, schedule[0]), schedule[1..])
  }

  lemma {:induction false} RunConcat<W, A>(next: (W, A) -> W, w: W, xs: seq<A>, ys: seq<A>)
    ensures Run(next, w, xs + ys) == Run(next, Run(next, w, xs), ys)
    decreases |xs|
  {
    if xs == [] {
      assert xs + ys == ys;
    } else {
      assert (xs + ys)[1..] == xs[1..] + ys;
      RunConcat(next, next(w, xs[0]), xs[1..], ys);
    }
  }

  lemma RunOne<W, A>(next: (W, A) -> W, w: W, a: A)
    ensures Run(next, w, [a]) == next(w, a)
  {
    assert Run(next, next(w, a), []) == next(w, a);
  }

  lemma RunFour<W, A>(next: (W, A) -> W, w: W, a: A, b: A, c: A, d: A)
    ensures Run(next, w, [a, b, c, d]) == next(next(next(next(w, a), b), c), d)
  {
    RunConcat(next, w, [a], [b]);
    RunConcat(next, w, [a] + [b], [c]);
    RunConcat(next, w, [a] + [b] + [c], [d]);
    RunOne(next, w, a);
    RunOne(next, next(w, a), b);
    RunOne(next, next(next(w, a), b), c);
    RunOne(next, next(next(next(w, a), b), c), d);
    assert [a, b, c, d] == [a] + [b] + [c] + [d];
  }

  lemma {:induction false} RunPath<W, A>(next: (W, A) -> W, states: seq<W>, schedule: seq<A>)
    requires |states| == |schedule| + 1
    requires forall i :: 0 <= i < |schedule| ==> states[i + 1] == next(states[i], schedule[i])
    ensures Run(next, states[0], schedule) == states[|schedule|]
    decreases |schedule|
  {
    if schedule != [] { RunPath(next, states[1..], schedule[1..]); }
  }

  /** What every step keeps holds after every run. */
  lemma {:induction false} RunInvariant<W(!new), A(!new)>(next: (W, A) -> W, inv: W -> bool, w: W, schedule: seq<A>)
    requires inv(w) && forall v, a :: inv(v) ==> inv(next(v, a))
    ensures inv(Run(next, w, schedule))
    decreases |schedule|
  {
    if schedule != [] { RunInvariant(next, inv, next(w, schedule[0]), schedule[1..]); }
  }
}
