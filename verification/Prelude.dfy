/** Small datatypes and arithmetic shared by every component. */
module Prelude {

  datatype Option<+T> = None | Some(value: T)

  datatype Result<+T, +E> = Ok(value: T) | Err(error: E)

  function Max(a: int, b: int): int {
    if a < b then b else a
  }

  function Min(a: int, b: int): int {
    if a < b then a else b
  }

  /** No element occurs at two positions. */
  predicate Distinct<T(==)>(s: seq<T>) {
    forall i, j | 0 <= i < j < |s| :: s[i] != s[j]
  }

  // ---- The few facts about products that are needed ----

  lemma OneLess(n: int, p: int)
    ensures (n - 1) * p == n * p - p
  {
  }

  lemma NotNegative(n: int, p: int)
    requires 0 <= n && 0 <= p
    ensures 0 <= n * p
  {
  }

  lemma NotPositive(n: int, p: int)
    requires n <= 0 <= p
    ensures n * p <= 0
  {
  }
}
