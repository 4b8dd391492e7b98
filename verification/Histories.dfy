/** Histories of any deterministic machine: the state they lead to and the trace they leave. */
module Histories {

  function Fold<S, E>(next: (S, E) -> S, s: S, es: seq<E>): S
  {
    if es == [] then s else next(Fold(next, s, es[..|es| - 1]), es[|es| - 1])
  }

  function Trace<S, E, O>(next: (S, E) -> S, out: (S, E) -> seq<O>, s: S, es: seq<E>): seq<O>
  {
    if es == [] then []
    else
      var init := es[..|es| - 1];
      Trace(next, out, s, init) + out(Fold(next, s, init), es[|es| - 1])
  }

  lemma {:induction false} FoldSplit<S, E>(next: (S, E) -> S, s: S, es: seq<E>, fs: seq<E>)
    ensures Fold(next, s, es + fs) == Fold(next, Fold(next, s, es), fs)
  {
    if fs == [] {
      assert es + fs == es;
    } else {
      assert (es + fs)[..|es + fs| - 1] == es + fs[..|fs| - 1];
      FoldSplit(next, s, es, fs[..|fs| - 1]);
    }
  }

  lemma {:induction false} TraceSplit<S, E, O>(
    next: (S, E) -> S, out: (S, E) -> seq<O>, s: S, es: seq<E>, fs: seq<E>)
    ensures Trace(next, out, s, es + fs) == Trace(next, out, s, es) + Trace(next, out, Fold(next, s, es), fs)
  {
    if fs == [] {
      assert es + fs == es;
    } else {
      assert (es + fs)[..|es + fs| - 1] == es + fs[..|fs| - 1];
      TraceSplit(next, out, s, es, fs[..|fs| - 1]);
      FoldSplit(next, s, es, fs[..|fs| - 1]);
    }
  }
}
