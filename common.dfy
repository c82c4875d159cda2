/** The Option and Result types and the distinctness predicate shared by every cmdlet model. */
module Common {

  /** A value that may be absent: C#'s `null` for reference-typed locals and parameters. */
  datatype Option<+T> = None | Some(value: T)

  /** A value, or the exception the cmdlet would throw instead. */
  datatype Result<+T, +E> = Ok(value: T) | Err(error: E)

  /** No element occurs twice. */
  predicate NoDuplicates<T(==)>(s: seq<T>)
  {
    forall i, j :: 0 <= i < j < |s| ==> s[i] != s[j]
  }
}
