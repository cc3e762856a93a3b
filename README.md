# Patient management: registry, events, error responses and bearer-token checks

A Dafny model of the sequential decision-and-update logic of the patient-management
services:

- **Patient registry** (`patient.dfy`, `patient_repository.dfy`, `patient_service.dfy`).
  The Patient entity is a class whose setters change one field each. The patient
  table is a class over a map from identifier to row, with the unique email column
  enforced on save. The service's `createPatient`, `updatePatient`, `deletePatient`
  and `getPatients` are class methods. `createPatient` and `updatePatient` are proved
  to follow pure step functions (`Create`, `Update`). Each step gives the new table,
  the ordered trace of writes and external calls (save, billing call, event) and the
  result or exception. `deletePatient` is proved to leave the table as `StoreDelete`
  gives it and to append one delete to the trace. `getPatients` is proved to return
  every stored row once.
- **Creation event** (`kafka_producer.dfy`). The PATIENT_CREATED event is built from
  the patient. A build fault propagates. A send that throws is absorbed.
- **Error responses** (`global_exception_handler.dfy`). These are the three 400
  handlers. The validation handler folds the field errors into a map, so the last
  error of a field wins.
- **Login and token validation** (`auth_service.dfy`, `auth_controller.dfy`).
  `authenticate` is an Optional chain. `validateToken` turns a JwtException into
  false. `/login` maps the result to 200 or 401. `/validate` checks that the
  `Authorization` header starts with exactly the 7 characters `Bearer `, case and
  space included, and verifies the rest of the header as the token. This is not
  the bearer credential grammar of section 2.1 of RFC 6750:
  - a lower-case `bearer x` is rejected, though that grammar's scheme name is
    case-insensitive;
  - `Bearer  x` passes the token ` x`;
  - the bare `Bearer ` passes an empty token.

External parts are parameters of the model:

- the billing service's reply (`BillingReply`);
- whether the broker send throws;
- `LocalDate.parse` (`DateParser`);
- BCrypt matching, JWT minting and JWT verification (function-typed parameters).

Identifiers are generated by the store. `Ids.IdString` is their text form, and it
reads back through `Ids.ParseId`.

## Model

| member | source | states |
|---|---|---|
| Ids.IdString | patient-service/src/main/java/com/pm/patientservice/kafka/KafkaProducer.java:47 | the identifier text is non-empty and made only of lower-case hexadecimal digits |
| Ids.ParseIdString | patient-service/src/main/java/com/pm/patientservice/kafka/KafkaProducer.java:47 | the identifier text written into events and billing calls reads back as the identifier |
| Ids.IdStringInjective | patient-service/src/main/java/com/pm/patientservice/service/PatientService.java:72 | two patients with different identifiers get different patientId texts |
| PatientEntity.Patient.constructor | patient-service/src/main/java/com/pm/patientservice/model/Patient.java:20-41 | a new entity has the given required fields and no identifier; the store assigns it |
| PatientEntity.Patient.SetId | patient-service/src/main/java/com/pm/patientservice/model/Patient.java:47-49 | sets the identifier; every other field is unchanged |
| PatientEntity.Patient.SetName | patient-service/src/main/java/com/pm/patientservice/model/Patient.java:55-57 | the name afterwards is the one given; every other field is unchanged |
| PatientEntity.Patient.SetEmail | patient-service/src/main/java/com/pm/patientservice/model/Patient.java:63-65 | the email afterwards is the one given; every other field is unchanged |
| PatientEntity.Patient.SetAddress | patient-service/src/main/java/com/pm/patientservice/model/Patient.java:71-73 | the address afterwards is the one given; every other field is unchanged |
| PatientEntity.Patient.SetDateOfBirth | patient-service/src/main/java/com/pm/patientservice/model/Patient.java:79-81 | the date of birth afterwards is the one given; every other field is unchanged |
| PatientEntity.Patient.SetRegisteredDate | patient-service/src/main/java/com/pm/patientservice/model/Patient.java:87-89 | the registration date afterwards is the one given; every other field is unchanged |
| PatientStore.ExistsByEmail | patient-service/src/main/java/com/pm/patientservice/repository/PatientRepository.java:21 | true exactly when some stored patient has the email |
| PatientStore.ExistsByEmailAndIdNot | patient-service/src/main/java/com/pm/patientservice/repository/PatientRepository.java:22 | true exactly when a stored patient other than `id` has the email; it implies ExistsByEmail |
| PatientStore.OnlyHolderIsNotAnother | patient-service/src/main/java/com/pm/patientservice/repository/PatientRepository.java:22 | when `id` is the only holder of the email, the email exists but not for another patient |
| PatientStore.StoreFind | patient-service/src/main/java/com/pm/patientservice/repository/PatientRepository.java:20 | findById finds a row exactly when the identifier is stored, and what it finds is the stored row |
| PatientStore.StoreSave | patient-service/src/main/java/com/pm/patientservice/repository/PatientRepository.java:20 | a successful save puts the entity's row under its identifier: the entity's own if it has one, otherwise the next one issued, which advances the counter; it succeeds only when no other patient holds the email; a failed save changes nothing |
| PatientStore.StoreDelete | patient-service/src/main/java/com/pm/patientservice/repository/PatientRepository.java:20 | deleteById leaves exactly the old keys minus that identifier, every remaining row unchanged, and the counter unchanged |
| PatientStore.SavePreservesInvariant | patient-service/src/main/java/com/pm/patientservice/model/Patient.java:27-30 | whatever save is asked to store, rows stay keyed by their identifiers and no two share an email (the unique column) |
| PatientStore.SaveThenFind | patient-service/src/main/java/com/pm/patientservice/model/Patient.java:20-22 | after a successful save, findById on its identifier returns the saved row; a new entity gets an identifier not in use; other rows are unchanged |
| PatientStore.SaveFailsOnlyOnConflict | patient-service/src/main/java/com/pm/patientservice/model/Patient.java:29 | save fails exactly when another patient holds the email or the entity's identifier is gone, and a failed save changes nothing |
| PatientStore.DeleteRemovesOnlyThatId | patient-service/src/main/java/com/pm/patientservice/repository/PatientRepository.java:20 | deleteById removes that key and no other, keeps the invariant, and deleting twice is deleting once |
| PatientStore.PatientRepository.Save | patient-service/src/main/java/com/pm/patientservice/repository/PatientRepository.java:20 | the table and outcome follow StoreSave; a newly stored entity receives its identifier |
| PatientStore.PatientRepository.FindById | patient-service/src/main/java/com/pm/patientservice/repository/PatientRepository.java:20 | a fresh entity holding the stored row, exactly when the identifier is stored |
| PatientStore.PatientRepository.DeleteById | patient-service/src/main/java/com/pm/patientservice/repository/PatientRepository.java:20 | the table afterwards is StoreDelete of the old one |
| PatientStore.PatientRepository.FindAll | patient-service/src/main/java/com/pm/patientservice/service/PatientService.java:45 | every stored row exactly once: as many entries as rows, each a stored row, no identifier twice, every row present |
| Kafka.BuildEvent | patient-service/src/main/java/com/pm/patientservice/kafka/KafkaProducer.java:46-55 | fails exactly when the patient has no identifier; otherwise the patientId reads back as the identifier, name and email are copied, and the type is PATIENT_CREATED |
| Kafka.SendEvent | patient-service/src/main/java/com/pm/patientservice/kafka/KafkaProducer.java:44-64 | a build fault propagates and nothing is sent; otherwise one record for topic "patient" carrying the built event, whether or not the send throws; the patient is only read |
| Patients.Create | patient-service/src/main/java/com/pm/patientservice/service/PatientService.java:60-81 | a create that issues nothing changes nothing and fails; a successful create returns a row with the requested name and email, stored under the next identifier; a stored email gives EmailAlreadyExists |
| Patients.Update | patient-service/src/main/java/com/pm/patientservice/service/PatientService.java:89-111 | a failed update changes nothing and issues nothing; a successful one needs a stored patient, keeps its identifier and registration date, takes the requested email, replaces only that row and records one write |
| Patients.CreateRejectsTakenEmail | patient-service/src/main/java/com/pm/patientservice/service/PatientService.java:62-65 | a create with a stored email throws EmailAlreadyExists with the table unchanged, no write, no billing call, no event |
| Patients.CreateEffectsInOrder | patient-service/src/main/java/com/pm/patientservice/service/PatientService.java:68-77 | every create trace is empty, or save then billing for that row, optionally then the event for that row; success exactly when all three happened |
| Patients.CreateAddsOnePatient | patient-service/src/main/java/com/pm/patientservice/service/PatientService.java:67-80 | a fresh email adds exactly one row under a new identifier with the requested fields, bills once with (identifier text, name, email), and sends the event and returns the row when billing answers; when billing fails the row stays, BillingFailure propagates and no event is sent |
| Patients.CreatedEventNamesPatient | patient-service/src/main/java/com/pm/patientservice/service/PatientService.java:77 | the event a create sends goes to "patient", its patientId reads back as the stored identifier, name and email are the stored ones, and the type is PATIENT_CREATED |
| Patients.CreateKeepsInvariant | patient-service/src/main/java/com/pm/patientservice/service/PatientService.java:60-81 | create keeps emails unique, and the unique column never rejects it, because the service checks first |
| Patients.UpdateUnknownId | patient-service/src/main/java/com/pm/patientservice/service/PatientService.java:91-93 | an update of an unknown identifier throws PatientNotFound and changes nothing |
| Patients.UpdateEmailConflict | patient-service/src/main/java/com/pm/patientservice/service/PatientService.java:97-100 | EmailAlreadyExists exactly when the patient exists and a different patient holds the email; keeping one's own email never conflicts |
| Patients.UpdateReplacesFields | patient-service/src/main/java/com/pm/patientservice/service/PatientService.java:102-110 | a successful update replaces name, address, email and date of birth, keeps identifier and registration date, and leaves other patients unchanged; a failure changes nothing; the invariant is kept |
| Patients.PatientService.GetPatients | patient-service/src/main/java/com/pm/patientservice/service/PatientService.java:44-49 | one entry per stored patient, each a stored row |
| Patients.PatientService.CreatePatient | patient-service/src/main/java/com/pm/patientservice/service/PatientService.java:60-81 | the table, appended trace and result are those of Create; the table invariant is kept |
| Patients.PatientService.UpdatePatient | patient-service/src/main/java/com/pm/patientservice/service/PatientService.java:89-111 | the table, appended trace and result are those of Update, with the loaded entity changed through its setters |
| Patients.PatientService.DeletePatient | patient-service/src/main/java/com/pm/patientservice/service/PatientService.java:117-119 | the table loses that identifier only, and the delete is recorded in the trace |
| ErrorHandling.Collected | patient-service/src/main/java/com/pm/patientservice/exception/GlobalExceptionHandler.java:31-32 | every entry of the folded map is the field and message of some error in the list |
| ErrorHandling.CollectedKeys | patient-service/src/main/java/com/pm/patientservice/exception/GlobalExceptionHandler.java:28-32 | the validation body's keys are exactly the fields that have errors |
| ErrorHandling.CollectedLastWins | patient-service/src/main/java/com/pm/patientservice/exception/GlobalExceptionHandler.java:31-32 | for a field with several errors, the message kept is its last error's |
| ErrorHandling.HandleValidationException | patient-service/src/main/java/com/pm/patientservice/exception/GlobalExceptionHandler.java:26-35 | status 400 with the folded field errors; the keys are the erroneous fields; no errors give an empty body |
| ErrorHandling.HandleEmailAlreadyExists | patient-service/src/main/java/com/pm/patientservice/exception/GlobalExceptionHandler.java:41-49 | status 400 with body exactly {"email": "Email already exists!"}, whatever the exception message |
| ErrorHandling.HandlePatientNotFound | patient-service/src/main/java/com/pm/patientservice/exception/GlobalExceptionHandler.java:55-63 | status 400 with body exactly {"message": "Patient not found!"}, whatever the exception message |
| Auth.FindByEmail | auth-service/src/main/java/com/pm/authservice/service/AuthService.java:47 | a user is found exactly when the email is registered, and it is that registered user |
| Auth.Matches | auth-service/src/main/java/com/pm/authservice/service/AuthService.java:48-49 | the password check throws exactly when the raw password is null (BCryptPasswordEncoder, SecurityConfig.java:37); otherwise it is the matcher's answer |
| Auth.Authenticate | auth-service/src/main/java/com/pm/authservice/service/AuthService.java:45-52 | an exception exactly when the email is known and the password is null; a token exactly when the email is known and a present password matches the stored hash, minted from the stored user's email and role; otherwise empty |
| Auth.LoginFailuresLeak | auth-service/src/main/java/com/pm/authservice/service/AuthService.java:45-52 | with a password, an unknown email and a wrong password both give empty; without one, a registered email throws while an unknown email gives empty |
| Auth.ValidateToken | auth-service/src/main/java/com/pm/authservice/service/AuthService.java:58-65 | true exactly when verification succeeds, false exactly when it throws a JwtException (bad signature or malformed), and any other exception propagates |
| AuthApi.Login | auth-service/src/main/java/com/pm/authservice/controller/AuthController.java:30-40 | an exception from authentication propagates; otherwise 401 with no body exactly when authentication is empty, and 200 with the returned token when it is not |
| AuthApi.ValidateHeader | auth-service/src/main/java/com/pm/authservice/controller/AuthController.java:46-58 | 401 when the header does not start with "Bearer "; 200 exactly when it does and the text after the first 7 characters verifies; an exception exactly when that verification throws a non-JWT exception; no other status |
| AuthApi.StartsWith | auth-service/src/main/java/com/pm/authservice/controller/AuthController.java:50 | true exactly when the prefix is the first characters of the string |
| AuthApi.MissingPrefixRejected | auth-service/src/main/java/com/pm/authservice/controller/AuthController.java:50-52 | a header not starting with exactly "Bearer " gets 401, the same whatever the verifier would say, so the token is never checked |
| AuthApi.PrefixIsExact | auth-service/src/main/java/com/pm/authservice/controller/AuthController.java:50 | "bearer ", "BEARER " and "Bearer" without the space are all rejected with 401 |
| AuthApi.BearerTokenChecked | auth-service/src/main/java/com/pm/authservice/controller/AuthController.java:55-57 | for "Bearer " + token the token checked is exactly `token`, empty for the bare prefix: 200 iff it verifies, 401 iff a JwtException, other exceptions propagate |
| AuthApi.ExtraSpaceKept | auth-service/src/main/java/com/pm/authservice/controller/AuthController.java:55 | after "Bearer  " (two spaces) the token verified begins with the second space |
| AuthApi.HeaderSplits | auth-service/src/main/java/com/pm/authservice/controller/AuthController.java:55 | every header that passes the prefix check is "Bearer " followed by the substring from index 7 |

## Left out

- Ids.IdString: Java's UUID text is 36 characters in the 8-4-4-4-12 dashed layout. The model writes the identifier's hexadecimal digits with no dashes and no fixed width. Only the read-back property is relied on.
- Identifier generation: the store issues identifiers from a counter, not random UUIDs. The model relies only on the identifier being unused.
- PatientMapper and the request and response DTOs are not part of this model. `Patients.ToModel` assumes that toModel copies name, email and address and parses both dates. toDTO is not modelled, so operations return the stored row.
- Getters: they are plain field reads of the Patient class.
- Serialization: `toByteArray` and the protobuf schema are not part of this model. The record carries the event value itself.
- Kafka.SendEvent: the broker's asynchronous completion and delivery are not modelled. Only the call to send and the absorbed exception are.
- JwtUtil (HMAC signing and parsing) is left out. Token minting and verification are parameters. The code sets the issued-at time 10 hours ahead and never sets an expiry, so the model has no expiry.
- The API gateway filter and its exception handler: these are reactive network plumbing. Their missing-prefix branch only sets status 401 and does not return.
- The billing gRPC client and server: the call is a parameter (`BillingReply`), either an answer or a transport error.
- The analytics Kafka consumer, infrastructure provisioning, PatientController routing, SecurityConfig, the integration tests and all logging.
- Bean validation of Patient: `@NotNull` is captured by non-null field types, and `@Email` syntax is not checked.
- Auth.Authenticate: `/login` has no `@Valid` (AuthController.java:31), so LoginRequestDTO's `@NotBlank` and `@Email` are never checked there. A missing password is modelled (None, and the BCrypt matcher throws). A missing email, i.e. `findByEmail(null)`, is not: the email is always a present string.
- FieldError messages: Java allows a null default message, but the model uses a plain string.
- The Authorization header: `@RequestHeader` is required, so the header is always a present string.
- Spring's dispatch from a thrown exception to its handler: the handlers are modelled as separate operations.
- Concurrency: the check-then-save race in createPatient and concurrent deletes are not modelled, and everything runs sequentially. In the model the unique column and stale-entity failures on save are reachable only without the service's checks.
- Behaviours taken from the code as written:
  - the event type is PATIENT_CREATED;
  - there is no token expiry;
  - the gateway does not short-circuit on a missing prefix;
  - a missing id on deleteById is a no-op.
