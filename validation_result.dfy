/**
 * ValidationResult: a CoreResult with no result value, plus the list of validation errors.
 */
module ValidationResults {

  import opened Wrappers
  import opened CoreResults
  import opened ValidationErrors

  datatype ValidationResult = ValidationResult(core: CoreResult<(), ValidationError>, errors: seq<ValidationError>) {
    predicate IsSuccess() {
      core.IsSuccess()
    }
  }

  /** The single-error constructor: a failure listing exactly that error. */
  function OfValidationError(error: ValidationError): (r: ValidationResult)
    ensures !r.IsSuccess() && r.core.error == Some(error)
    ensures r.errors == [error]
  {
    ValidationResult(OfError(Some(error)), [error])
  }

  /**
   * The list constructor: no errors give success; otherwise the failure's error combines
   * every message, and the list is kept as given.
   */
  function OfErrors(errors: seq<ValidationError>): (r: ValidationResult)
    ensures r.errors == errors
    ensures r.IsSuccess() <==> errors == []
    ensures errors != [] ==> r.core.error == Some(Combined(errors))
  {
    ValidationResult(OfError(if errors == [] then None else Some(Combined(errors))), errors)
  }

  /** The no-argument constructor: success with no errors. */
  function Success(): (r: ValidationResult)
    ensures r.IsSuccess() && r.errors == [] && r.core.result == None
  {
    ValidationResult(OfResult(None), [])
  }
}
