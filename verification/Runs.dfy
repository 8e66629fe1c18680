/** Runs of a state machine that is given by its step function. */
module Runs {
  import opened Basics

  /** The state after a run, if the run is possible. */
  function After<S, E>(step: (S, E) -> Option<S>, s: S, es: seq<E>): Option<S> {
    if es == [] then Some(s)
    else
      var r := After(step, s, es[..|es| - 1]);
      if r.Some? then step(r.value, es[|es| - 1]) else None
  }

  /** One more step. */
  lemma Then<S, E>(step: (S, E) -> Option<S>, s: S, es: seq<E>, t: S, e: E, u: S) returns (fs: seq<E>)
    requires After(step, s, es) == Some(t) && step(t, e) == Some(u)
    ensures After(step, s, fs) == Some(u) && fs == es + [e]
  {
    fs := es + [e];
    assert fs[..|fs| - 1] == es;
  }

  lemma Do<S, E>(step: (S, E) -> Option<S>, s0: S, es: seq<E>, s: S, e: E) returns (fs: seq<E>, t: S)
    requires After(step, s0, es) == Some(s) && step(s, e).Some?
    ensures step(s, e) == Some(t) && After(step, s0, fs) == Some(t) && fs == es + [e]
  {
    t := step(s, e).value;
    fs := Then(step, s0, es, s, e, t);
  }

  /** One run after the other. */
  lemma {:induction false} Joined<S, E>(step: (S, E) -> Option<S>, s: S, es: seq<E>, t: S, fs: seq<E>)
    requires After(step, s, es) == Some(t)
    ensures After(step, s, es + fs) == After(step, t, fs)
  {
    if fs == [] {
      assert es + fs == es;
    } else {
      Joined(step, s, es, t, fs[..|fs| - 1]);
      assert (es + fs)[..|es + fs| - 1] == es + fs[..|fs| - 1];
    }
  }
}
