module Wrappers {
  datatype Option<+T> = None | Some(value: T)

  /** The outcome of an operation that may bail out. */
  datatype Result<+T> = Ok(value: T) | Err

  /** `items` in front of a list that may have failed. */
  function Prepend<T>(items: seq<T>, r: Result<seq<T>>): Result<seq<T>> {
    match r
    case Err => Err
    case Ok(more) => Ok(items + more)
  }

  lemma PrependJoin<T>(items: seq<T>, more: seq<T>, r: Result<seq<T>>)
    ensures Prepend(items, Prepend(more, r)) == Prepend(items + more, r)
    ensures Prepend([], r) == r && Prepend(items, Ok([])) == Ok(items)
  {
    assert r.Ok? ==> items + (more + r.value) == (items + more) + r.value;
    assert r.Ok? ==> [] + r.value == r.value;
    assert items + [] == items;
  }
}
