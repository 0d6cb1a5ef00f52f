/** Option and Result: absent values (Java `null`) and operations that may throw. */
module Wrappers {

  datatype Option<+T> = None | Some(value: T)

  /** The value of an operation that either returns normally or throws `error`. */
  datatype Result<+T, +E> = Ok(value: T) | Err(error: E) {

    predicate IsFailure() {
      Err?
    }

    function PropagateFailure<U>(): Result<U, E>
      requires Err?
    {
      Err(error)
    }

    function Extract(): T
      requires Ok?
    {
      value
    }
  }

  /** The list a present value adds to: `[v]` for `Some(v)`, nothing for `None`. */
  function AsSeq<T>(o: Option<T>): (r: seq<T>)
    ensures o.None? <==> r == []
    ensures o.Some? ==> r == [o.value]
  {
    if o.Some? then [o.value] else []
  }

  /** The values present, in order: the `!= null` entries of a list. */
  function Present<T>(xs: seq<Option<T>>): seq<T> {
    if xs == [] then [] else Present(xs[..|xs| - 1]) + AsSeq(xs[|xs| - 1])
  }

  /** Nothing is present exactly when every entry is absent. */
  lemma {:induction false} PresentEmpty<T>(xs: seq<Option<T>>)
    ensures Present(xs) == [] <==> forall k :: 0 <= k < |xs| ==> xs[k].None?
  {
    if xs != [] {
      var init := xs[..|xs| - 1];
      PresentEmpty(init);
      assert forall k :: 0 <= k < |init| ==> init[k] == xs[k];
      if xs[|xs| - 1].Some? {
        assert |Present(xs)| == |Present(init)| + 1;
      } else {
        assert Present(xs) == Present(init) + [];
      }
    }
  }
}
