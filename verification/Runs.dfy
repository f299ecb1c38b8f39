/** Runs of a step machine: sequences of events, each enabled in the state the ones before it lead to. */
module Runs {

  predicate IsRun<S, E>(enabled: (S, E) -> bool, apply: (S, E) -> S, s: S, es: seq<E>)
    decreases |es|
  {
    |es| == 0 || (enabled(s, es[0]) && IsRun(enabled, apply, apply(s, es[0]), es[1..]))
  }

  function Final<S, E>(apply: (S, E) -> S, s: S, es: seq<E>): S
    decreases |es|
  {
    if |es| == 0 then s else Final(apply, apply(s, es[0]), es[1..])
  }

  lemma {:induction false} RunAppend<S, E>(enabled: (S, E) -> bool, apply: (S, E) -> S, s: S, a: seq<E>, b: seq<E>)
    requires IsRun(enabled, apply, s, a) && IsRun(enabled, apply, Final(apply, s, a), b)
    ensures IsRun(enabled, apply, s, a + b) && Final(apply, s, a + b) == Final(apply, Final(apply, s, a), b)
    decreases |a|
  {
    if |a| == 0 {
      assert a + b == b;
    } else {
      RunAppend(enabled, apply, apply(s, a[0]), a[1..], b);
      assert (a + b)[1..] == a[1..] + b;
    }
  }

  lemma RunCons<S, E>(enabled: (S, E) -> bool, apply: (S, E) -> S, s: S, e: E, es: seq<E>)
    requires enabled(s, e) && IsRun(enabled, apply, apply(s, e), es)
    ensures IsRun(enabled, apply, s, [e] + es) && Final(apply, s, [e] + es) == Final(apply, apply(s, e), es)
  {
    assert ([e] + es)[1..] == es;
  }

  /** The number of events of a run that are of some kind, which may depend on the state they meet. */
  function Tally<S, E>(apply: (S, E) -> S, kind: (S, E) -> bool, s: S, es: seq<E>): nat
    decreases |es|
  {
    if |es| == 0 then 0 else (if kind(s, es[0]) then 1 else 0) + Tally(apply, kind, apply(s, es[0]), es[1..])
  }

  lemma {:induction false} TallyAppend<S, E>(apply: (S, E) -> S, kind: (S, E) -> bool, s: S, a: seq<E>, b: seq<E>)
    ensures Tally(apply, kind, s, a + b) == Tally(apply, kind, s, a) + Tally(apply, kind, Final(apply, s, a), b)
    decreases |a|
  {
    if |a| == 0 {
      assert a + b == b;
    } else {
      TallyAppend(apply, kind, apply(s, a[0]), a[1..], b);
      assert (a + b)[1..] == a[1..] + b;
    }
  }

  lemma TallyOne<S, E>(apply: (S, E) -> S, kind: (S, E) -> bool, s: S, es: seq<E>, e: E)
    ensures Tally(apply, kind, s, es + [e]) == Tally(apply, kind, s, es) + if kind(Final(apply, s, es), e) then 1 else 0
  {
    TallyAppend(apply, kind, s, es, [e]);
  }
}
