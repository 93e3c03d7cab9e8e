/** Optional values, fallible results, small arithmetic, and what every replayed history has in common. */
module Wrappers {
  datatype Option<+T> = None | Some(value: T)

  datatype Result<+T> = Ok(value: T) | Err

  function Min(a: int, b: int): int { if a <= b then a else b }
  function Max(a: int, b: int): int { if a >= b then a else b }

  // ---- State machines ---------------------------------------------------------------------

  /** `replay` begins in `start` and takes one event after another. */
  ghost predicate TakesStep<S, E>(start: S, step: (S, E) -> S, replay: (seq<E>, nat) -> S, h: seq<E>, n: nat) {
    n <= |h| ==> replay(h, n) == if n == 0 then start else step(replay(h, n - 1), h[n - 1])
  }

  /** What came before does not depend on what follows. */
  lemma {:induction false} PrefixDecides<S(!new), E(!new)>(start: S, step: (S, E) -> S, replay: (seq<E>, nat) -> S,
                                                           h: seq<E>, more: seq<E>, n: nat)
    requires n <= |h| && forall g, k: nat :: TakesStep(start, step, replay, g, k)
    ensures replay(h + more, n) == replay(h, n)
  {
    assert TakesStep(start, step, replay, h + more, n) && TakesStep(start, step, replay, h, n);
    if n > 0 { PrefixDecides(start, step, replay, h, more, n - 1); }
  }

  /** One more event is one more step. */
  lemma OneMoreEvent<S(!new), E(!new)>(start: S, step: (S, E) -> S, replay: (seq<E>, nat) -> S, h: seq<E>, e: E)
    requires forall g, k: nat :: TakesStep(start, step, replay, g, k)
    ensures replay(h + [e], |h| + 1) == step(replay(h, |h|), e)
  {
    PrefixDecides(start, step, replay, h, [e], |h|);
    assert TakesStep(start, step, replay, h + [e], |h| + 1);
  }
}
