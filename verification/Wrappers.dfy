/** Optional values, results of calls that may be refused, and the ends of a trace. */
module Wrappers {

  datatype Option<+T> = None | Some(value: T)

  datatype Result<+T, +E> = Ok(value: T) | Err(error: E)

  function Front<T>(s: seq<T>): seq<T>
    requires s != []
  {
    s[..|s| - 1]
  }

  function Last<T>(s: seq<T>): T
    requires s != []
  {
    s[|s| - 1]
  }

  // The state a machine reaches by a sequence of events.
  function Fold<S, E>(step: (S, E) -> S, start: S, events: seq<E>): S {
    if events == [] then start else step(Fold(step, start, Front(events)), Last(events))
  }

  lemma FoldAppend<S, E>(step: (S, E) -> S, start: S, events: seq<E>, event: E)
    ensures Fold(step, start, events + [event]) == step(Fold(step, start, events), event)
  {
    assert Front(events + [event]) == events;
  }

  lemma {:induction false} FoldCompose<S, E>(step: (S, E) -> S, start: S, first: seq<E>, second: seq<E>)
    ensures Fold(step, start, first + second) == Fold(step, Fold(step, start, first), second)
  {
    if second == [] {
      assert first + second == first;
    } else {
      FoldCompose(step, start, first, Front(second));
      assert Front(first + second) == first + Front(second);
    }
  }
}
