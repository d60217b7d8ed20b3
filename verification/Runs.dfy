/** Runs of a nondeterministic system: `next` gives the state after an event, or None when
    the event cannot happen in that state. */
module Runs {
  import opened Prelude

  function Run<S, E>(next: (S, E) -> Option<S>, s: S, evs: seq<E>): Option<S> {
    if evs == [] then Some(s)
    else
      match Run(next, s, evs[..|evs| - 1])
      case None => None
      case Some(t) => next(t, evs[|evs| - 1])
  }

  /** What every step keeps, every run keeps. */
  lemma {:induction false} RunKeeps<S(!new), E(!new)>(next: (S, E) -> Option<S>, inv: S -> bool, s: S, evs: seq<E>)
    requires inv(s) && Run(next, s, evs).Some?
    requires forall t, e :: inv(t) && next(t, e).Some? ==> inv(next(t, e).value)
    ensures inv(Run(next, s, evs).value)
  {
    if evs == [] {
    } else {
      RunKeeps(next, inv, s, evs[..|evs| - 1]);
    }
  }

  lemma RunOneMore<S, E>(next: (S, E) -> Option<S>, s: S, evs: seq<E>, e: E)
    requires Run(next, s, evs).Some?
    ensures Run(next, s, evs + [e]) == next(Run(next, s, evs).value, e)
  {
    assert (evs + [e])[..|evs|] == evs;
  }

  /** A run and one more event that can happen. */
  lemma OneMore<S, E>(next: (S, E) -> Option<S>, s: S, evs: seq<E>, t: S, e: E) returns (evs': seq<E>, t': S)
    requires Run(next, s, evs) == Some(t) && next(t, e).Some?
    ensures evs' == evs + [e] && t' == next(t, e).value && Run(next, s, evs') == Some(t')
  {
    RunOneMore(next, s, evs, e);
    evs', t' := evs + [e], next(t, e).value;
  }

  lemma {:induction false} RunConcat<S, E>(next: (S, E) -> Option<S>, s: S, a: seq<E>, b: seq<E>)
    requires Run(next, s, a).Some?
    ensures Run(next, s, a + b) == Run(next, Run(next, s, a).value, b)
    decreases |b|
  {
    if b == [] {
      assert a + b == a;
    } else {
      assert (a + b)[..|a + b| - 1] == a + b[..|b| - 1];
      RunConcat(next, s, a, b[..|b| - 1]);
    }
  }
}
