/** Shared value types. */
module Wrappers {
  datatype Option<+T> = None | Some(value: T)

  datatype Result<+T, +E> = Ok(value: T) | Err(error: E)

  /** Rust's `a.max(Some(b))` on `Option<i64>`: `None` is below every value. */
  function MaxOption(a: Option<int>, b: int): (r: Option<int>)
    ensures r.Some? && r.value >= b && (a.Some? ==> r.value >= a.value)
    ensures r == Some(b) || r == a
  {
    if a.Some? && a.value > b then a else Some(b)
  }

  lemma SubsetSize<T>(a: set<T>, b: set<T>)
    requires a <= b
    ensures |a| <= |b|
  {
    assert b == a + (b - a);
  }
}
