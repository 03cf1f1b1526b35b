/** Values that may be absent, and results that may be errors. */
module Wrappers {
  datatype Option<+T> = None | Some(value: T)

  datatype Result<+T, +E> = Ok(value: T) | Err(error: E)
}

/**
 * Runs of a machine. A machine is a partial step: what an event does to a
 * state, or nothing when that event cannot happen there. A protocol between
 * threads becomes such a machine by making every atomic action an event that
 * names the thread taking it, so that a run is one interleaving.
 */
module Runs {
  import opened Wrappers

  ghost predicate IsRun<S, E>(step: (S, E) -> Option<S>, s: S, es: seq<E>)
    decreases |es|
  {
    es == [] || (step(s, es[0]).Some? && IsRun(step, step(s, es[0]).value, es[1..]))
  }

  ghost function After<S, E>(step: (S, E) -> Option<S>, s: S, es: seq<E>): S
    requires IsRun(step, s, es)
    decreases |es|
  {
    if es == [] then s else After(step, step(s, es[0]).value, es[1..])
  }

  ghost predicate Preserves<S(!new), E(!new)>(step: (S, E) -> Option<S>, inv: S -> bool) {
    forall s, e :: inv(s) && step(s, e).Some? ==> inv(step(s, e).value)
  }

  /** What every step keeps holds at the end of every run. */
  lemma {:induction false} Always<S(!new), E(!new)>(step: (S, E) -> Option<S>, inv: S -> bool, s: S, es: seq<E>)
    requires Preserves(step, inv) && inv(s) && IsRun(step, s, es)
    ensures inv(After(step, s, es))
    decreases |es|
  {
    if es != [] {
      Always(step, inv, step(s, es[0]).value, es[1..]);
    }
  }

  /** A run can be looked at after any number of its steps. */
  lemma {:induction false} Split<S, E>(step: (S, E) -> Option<S>, s: S, es: seq<E>, k: nat)
    requires IsRun(step, s, es) && k <= |es|
    ensures IsRun(step, s, es[..k])
    ensures IsRun(step, After(step, s, es[..k]), es[k..])
    ensures After(step, s, es) == After(step, After(step, s, es[..k]), es[k..])
    decreases |es|
  {
    if k == 0 {
      assert es[k..] == es;
    } else {
      Split(step, step(s, es[0]).value, es[1..], k - 1);
      assert es[..k][1..] == es[1..][..k - 1];
      assert es[1..][k - 1..] == es[k..];
    }
  }

  /** Two runs, the second from where the first ended, are one run. */
  lemma {:induction false} Join<S, E>(step: (S, E) -> Option<S>, s: S, es: seq<E>, more: seq<E>)
    requires IsRun(step, s, es) && IsRun(step, After(step, s, es), more)
    ensures IsRun(step, s, es + more)
    ensures After(step, s, es + more) == After(step, After(step, s, es), more)
    decreases |es|
  {
    if es == [] {
      assert es + more == more;
    } else {
      Join(step, step(s, es[0]).value, es[1..], more);
      assert (es + more)[1..] == es[1..] + more;
    }
  }

  /** A run goes on by any event that can happen where it ended. */
  lemma Then<S, E>(step: (S, E) -> Option<S>, s: S, es: seq<E>, e: E)
    requires IsRun(step, s, es) && step(After(step, s, es), e).Some?
    ensures IsRun(step, s, es + [e]) && After(step, s, es + [e]) == step(After(step, s, es), e).value
  {
    var t := step(After(step, s, es), e).value;
    assert [e][1..] == [];
    assert IsRun(step, t, []) && After(step, t, []) == t;
    Join(step, s, es, [e]);
  }

  /** A run from after one event is a run from before it. */
  lemma First<S, E>(step: (S, E) -> Option<S>, s: S, e: E, s': S, es: seq<E>)
    requires step(s, e) == Some(s') && IsRun(step, s', es)
    ensures IsRun(step, s, [e] + es) && After(step, s, [e] + es) == After(step, s', es)
  {
    assert ([e] + es)[1..] == es;
  }
}
