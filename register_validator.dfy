/**
 * RegisterModelValidator: a registration needs a username and a password. Its null-model
 * message is the login validator's text.
 */
module RegisterValidator {

  import opened Wrappers
  import opened ValidationErrors
  import opened ValidationResults
  import opened ModelValidator

  datatype RegisterModel = RegisterModel(username: Option<string>, password: Option<string>)

  function RegisterChecks(m: RegisterModel): seq<Check> {
    [ NotEmpty("Username", m.username), NotEmpty("Password", m.password) ]
  }

  /**
   * validate: a null model is the single error "Login model is null"; otherwise one error
   * per missing field, and success iff both are filled. There is no other rule.
   */
  function Validate(model: Option<RegisterModel>): (r: ValidationResult)
    ensures model.None? ==> !r.IsSuccess() && r.errors == [Single("Login model is null")]
    ensures model.Some? ==> (r.IsSuccess() <==> Filled(model.value.username) && Filled(model.value.password))
    ensures model.Some? ==>
              r.errors == (if Filled(model.value.username) then [] else [Single("Username is null or empty")])
                          + (if Filled(model.value.password) then [] else [Single("Password is null or empty")])
  {
    match model
    case None => OfValidationError(Single("Login model is null"))
    case Some(m) =>
      var checks := RegisterChecks(m);
      FieldMessages();
      EnsureSuccess(checks);
      assert checks == [checks[0]] + [checks[1]];
      FailuresAppend([checks[0]], [checks[1]]);
      FailuresSingle(checks[0]);
      FailuresSingle(checks[1]);
      Ensure(checks)
  }

  lemma FieldMessages()
    ensures "Username" + " is null or empty" == "Username is null or empty"
    ensures "Password" + " is null or empty" == "Password is null or empty"
  {
  }
}
