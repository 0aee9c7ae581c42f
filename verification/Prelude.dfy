/** Datatypes shared by every component. */
module Prelude {
  datatype Option<+T> = None | Some(value: T)

  /** What a call hands back: a value, or the error it raised. */
  datatype Reply<+T> = Ok(value: T) | Err(code: string)

  /** Integer division as Go does it, towards zero. */
  function GoDiv(a: int, b: int): int
    requires b > 0
  {
    if a >= 0 then a / b else -((-a) / b)
  }

  // The two halves of a surrogate pair in UTF-16.

  predicate High(unit: int) { 0xd800 <= unit <= 0xdbff }

  predicate Low(unit: int) { 0xdc00 <= unit <= 0xdfff }

  lemma SubsetSize<T>(a: set<T>, b: set<T>)
    requires a <= b
    ensures |a| <= |b| && (|a| == |b| ==> a == b)
  {
    assert b == a + (b - a);
    assert |b| == |a| + |b - a|;
  }
}
