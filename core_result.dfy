/**
 * CoreResult<T, E>: either a result or an error, each of which Java allows to be null.
 * A missing value is None.
 */
module CoreResults {

  import opened Wrappers

  datatype CoreResult<T, E> = CoreResult(result: Option<T>, error: Option<E>) {
    /** isSuccess: there is no error. */
    predicate IsSuccess() {
      error.None?
    }
  }

  /** The result constructor: the error is null. */
  function OfResult<T, E>(result: Option<T>): (r: CoreResult<T, E>)
    ensures r.result == result && r.error == None
    ensures r.IsSuccess()
  {
    CoreResult(result, None)
  }

  /** The error constructor: the result is null; a null error still counts as success. */
  function OfError<T, E>(error: Option<E>): (r: CoreResult<T, E>)
    ensures r.result == None && r.error == error
    ensures r.IsSuccess() <==> error.None?
  {
    CoreResult(None, error)
  }
}
