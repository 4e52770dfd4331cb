/** Small shared definitions: failure-carrying values (a JavaScript value that may be
    `undefined`, an operation that returns a value or throws, an operation that
    returns nothing or throws), `Max0` and `Distinct`. */
module Wrappers {

  datatype Option<+T> = None | Some(value: T)

  datatype Result<+R, +E> = Success(value: R) | Failure(error: E)

  datatype Outcome<+E> = Pass | Fail(error: E)

  function Max0(n: int): nat
  {
    if n < 0 then 0 else n
  }

  predicate Distinct<T(==)>(s: seq<T>)
  {
    forall i, j :: 0 <= i < j < |s| ==> s[i] != s[j]
  }
}
