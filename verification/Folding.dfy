/** Callbacks that see one element after another and may refuse one of them, which ends the walk. */
module Folding {
  import opened Core

  // What a callback does with one element: the new user data and its verdict.
  type Fallible<!S, !E> = (S, E) -> (S, Error)

  /** Running a callback over elements, up to its first refusal. */
  function Fold<S, E>(callback: Fallible<S, E>, data: S, es: seq<E>): (S, Error) {
    if es == [] then (data, Ok)
    else
      var (after, error) := callback(data, es[0]);
      if error != Ok then (after, error) else Fold(callback, after, es[1..])
  }

  lemma {:induction false} FoldConcat<S, E>(callback: Fallible<S, E>, data: S, a: seq<E>, b: seq<E>)
    ensures Fold(callback, data, a + b) ==
            var (middle, error) := Fold(callback, data, a);
            if error != Ok then (middle, error) else Fold(callback, middle, b)
    decreases |a|
  {
    if a == [] {
      assert a + b == b;
    } else {
      assert (a + b)[1..] == a[1..] + b;
      FoldConcat(callback, callback(data, a[0]).0, a[1..], b);
    }
  }

  /** The callback that writes down what it sees. */
  function Record<E>(seen: seq<E>, e: E): (seq<E>, Error) {
    (seen + [e], Ok)
  }

  /** It has then seen exactly the elements, in order. */
  lemma {:induction false} FoldRecords<E>(seen: seq<E>, es: seq<E>)
    ensures Fold(Record, seen, es) == (seen + es, Ok)
    decreases |es|
  {
    if es == [] {
      assert seen + es == seen;
    } else {
      FoldRecords(seen + [es[0]], es[1..]);
      assert seen + es == seen + [es[0]] + es[1..];
    }
  }
}
