/**
 * Exception-to-response mapping (patient-service exception/GlobalExceptionHandler.java).
 *
 * Each handler fills a fresh map and answers 400 Bad Request with it as the body.
 */
module ErrorHandling {

  const BadRequest: int := 400

  /** One field error of a failed request validation. */
  datatype FieldError = FieldError(field: string, defaultMessage: string)

  datatype ErrorResponse = ErrorResponse(status: int, body: map<string, string>)

  /** The map after putting every error in order: a later put for a field
      overwrites an earlier one. */
  function Collected(errors: seq<FieldError>): (m: map<string, string>)
    ensures forall f | f in m :: exists i | 0 <= i < |errors| :: errors[i].field == f && errors[i].defaultMessage == m[f]
  {
    if errors == [] then map[]
    else
      var last := errors[|errors| - 1];
      Collected(errors[..|errors| - 1])[last.field := last.defaultMessage]
  }

  /** The fields that have at least one error. */
  function FieldsOf(errors: seq<FieldError>): set<string> {
    set i | 0 <= i < |errors| :: errors[i].field
  }

  /** The collected map has one key per field with an error, and no other. */
  lemma {:induction false} CollectedKeys(errors: seq<FieldError>)
    ensures Collected(errors).Keys == FieldsOf(errors)
  {
    if errors != [] {
      var init := errors[..|errors| - 1];
      CollectedKeys(init);
      assert forall i | 0 <= i < |init| :: init[i] == errors[i];
      assert FieldsOf(errors) == FieldsOf(init) + {errors[|errors| - 1].field};
    }
  }

  /** For a field with several errors, the message kept is that of its last error. */
  lemma {:induction false} CollectedLastWins(errors: seq<FieldError>, i: nat)
    requires i < |errors|
    requires forall j | i < j < |errors| :: errors[j].field != errors[i].field
    ensures errors[i].field in Collected(errors)
    ensures Collected(errors)[errors[i].field] == errors[i].defaultMessage
  {
    if i < |errors| - 1 {
      var init := errors[..|errors| - 1];
      CollectedLastWins(init, i);
    }
  }

  /** handleValidationException: 400 with each field's message, the last error of a
      field winning; no errors give an empty body. */
  method HandleValidationException(errors: seq<FieldError>) returns (resp: ErrorResponse)
    ensures resp.status == 400
    ensures resp.body == Collected(errors)
    ensures resp.body.Keys == FieldsOf(errors)
    ensures errors == [] ==> resp.body == map[]
  {
    var body: map<string, string> := map[];
    var i := 0;
    while i < |errors|
      invariant 0 <= i <= |errors|
      invariant body == Collected(errors[..i])
    {
      assert errors[..i + 1][..i] == errors[..i];
      body := body[errors[i].field := errors[i].defaultMessage];
      i := i + 1;
    }
    assert errors[..i] == errors;
    CollectedKeys(errors);
    resp := ErrorResponse(BadRequest, body);
  }

  /** handleEmailAlreadyExistsException: 400 with a fixed email message, whatever
      the exception's own message. */
  method HandleEmailAlreadyExists(message: string) returns (resp: ErrorResponse)
    ensures resp.status == 400
    ensures resp.body == map["email" := "Email already exists!"]
  {
    var body: map<string, string> := map[];
    body := body["email" := "Email already exists!"];
    resp := ErrorResponse(BadRequest, body);
  }

  /** handlePatientNotFoundException: 400 with a fixed message, whatever the
      exception's own message. */
  method HandlePatientNotFound(message: string) returns (resp: ErrorResponse)
    ensures resp.status == 400
    ensures resp.body == map["message" := "Patient not found!"]
  {
    var body: map<string, string> := map[];
    body := body["message" := "Patient not found!"];
    resp := ErrorResponse(BadRequest, body);
  }
}
