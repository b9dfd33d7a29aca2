/** Option and Result, the absent value and the error value of the data layer. */
module Wrappers {

  /** `None` stands for Python's `None` (a cache miss, a dangling reference). */
  datatype Option<+T> = None | Some(value: T)

  /** The outcome of an operation that may fail with an error of kind `E`. */
  datatype Result<+T, +E> = Ok(value: T) | Err(error: E)

  /** Every element of the list is present (no `None` in a Python list). */
  predicate AllSome<T>(xs: seq<Option<T>>)
  {
    forall i | 0 <= i < |xs| :: xs[i].Some?
  }

  /** Wraps every element as present. */
  function Present<T>(xs: seq<T>): (r: seq<Option<T>>)
    ensures |r| == |xs| && AllSome(r)
    ensures forall i | 0 <= i < |xs| :: r[i] == Some(xs[i])
  {
    seq(|xs|, i requires 0 <= i < |xs| => Some(xs[i]))
  }
}
