/**
 * Patient registration (patient-service service/PatientService.java).
 *
 * Each operation is specified by a pure step over the table: the new table, the
 * ordered external effects it issued and its result.  The class methods below run
 * the operations against a PatientRepository object and are proved to follow those
 * steps.  The billing service's reply, the date parser and whether the broker send
 * throws are inputs: they are decided outside this service.
 */
module Patients {
  import opened Outcomes
  import opened Ids
  import opened PatientEntity
  import opened PatientStore
  import opened Kafka

  /** The create/update request body. */
  datatype PatientRequest = PatientRequest(
    name: string,
    email: string,
    address: string,
    dateOfBirth: string,
    registeredDate: string)

  /** LocalDate.parse: a date, or None when the text is not a date. */
  type DateParser = string -> Option<Date>

  /** The billing gRPC call and the remote service's answer to it. */
  datatype BillingRequest = BillingRequest(patientId: string, name: string, email: string)
  datatype BillingResponse = BillingResponse(accountId: string, status: string)
  datatype BillingReply = Answered(response: BillingResponse) | TransportError

  /** Writes and calls the service issues, in the order it issues them. */
  datatype Effect =
    | Wrote(row: PatientRow)
    | BillingCalled(request: BillingRequest)
    | EventSent(record: ProducerRecord)
    | Deleted(id: Uuid)

  /** Exceptions that leave the service. */
  datatype ServiceError =
    | EmailAlreadyExists
    | PatientNotFound
    | InvalidDate
    | ConstraintViolation
    | StaleEntity
    | BillingFailure

  /** One operation: the table afterwards, the effects issued and the result. */
  datatype Step = Step(store: Store, effects: seq<Effect>, result: Result<PatientRow, ServiceError>)

  /** The entity built from a request (PatientMapper.toModel): the text fields
      copied, both dates parsed. */
  function ToModel(req: PatientRequest, parse: DateParser): Option<PatientState> {
    match (parse(req.dateOfBirth), parse(req.registeredDate))
    case (Some(dob), Some(reg)) => Some(PatientState(None, req.name, req.email, req.address, dob, reg))
    case _ => None
  }

  /** The billing call for a stored patient: identifier text, name, email. */
  function BillingRequestFor(row: PatientRow): BillingRequest {
    BillingRequest(IdString(row.id), row.name, row.email)
  }

  function SaveError(o: SaveOutcome): ServiceError {
    if o.EmailTaken? then ConstraintViolation else StaleEntity
  }

  /** createPatient: uniqueness check, save, billing call, event. */
  function Create(st: Store, req: PatientRequest, parse: DateParser, reply: BillingReply): (o: Step)
    ensures o.effects == [] ==> o.store == st && o.result.Failure?
    ensures o.result.Success? ==>
      && o.result.value.email == req.email && o.result.value.name == req.name
      && o.result.value.id == st.nextId
      && o.store.rows == st.rows[o.result.value.id := o.result.value]
    ensures ExistsByEmail(st.rows, req.email) ==> o.result == Failure(EmailAlreadyExists)
  {
    if ExistsByEmail(st.rows, req.email) then Step(st, [], Failure(EmailAlreadyExists))
    else match ToModel(req, parse)
      case None => Step(st, [], Failure(InvalidDate))
      case Some(p) =>
        var sv := StoreSave(st, p);
        if !sv.outcome.Saved? then Step(st, [], Failure(SaveError(sv.outcome)))
        else
          var row := sv.outcome.row;
          var called := [Wrote(row), BillingCalled(BillingRequestFor(row))];
          if reply.TransportError? then Step(sv.store, called, Failure(BillingFailure))
          else Step(sv.store, called + [EventSent(RecordFor(row))], Success(row))
  }

  /** updatePatient: load, check the email against other patients, set the fields,
      save. */
  function Update(st: Store, id: Uuid, req: PatientRequest, parse: DateParser): (o: Step)
    ensures o.result.Failure? ==> o.store == st && o.effects == []
    ensures o.result.Success? ==>
      && id in st.rows
      && o.result.value.id == st.rows[id].id
      && o.result.value.email == req.email
      && o.result.value.registeredDate == st.rows[id].registeredDate
      && o.store.rows == st.rows[o.result.value.id := o.result.value]
      && o.effects == [Wrote(o.result.value)]
  {
    if id !in st.rows then Step(st, [], Failure(PatientNotFound))
    else if ExistsByEmailAndIdNot(st.rows, req.email, id) then Step(st, [], Failure(EmailAlreadyExists))
    else match parse(req.dateOfBirth)
      case None => Step(st, [], Failure(InvalidDate))
      case Some(dob) =>
        var p := StateOf(st.rows[id]).(name := req.name, address := req.address, email := req.email, dateOfBirth := dob);
        var sv := StoreSave(st, p);
        if sv.outcome.Saved? then Step(sv.store, [Wrote(sv.outcome.row)], Success(sv.outcome.row))
        else Step(st, [], Failure(SaveError(sv.outcome)))
  }

  /** The shape of every createPatient trace: nothing, or the write followed by the
      billing call for that row, optionally followed by the event for that row. */
  predicate CreateTrace(effects: seq<Effect>) {
    || effects == []
    || (&& (|effects| == 2 || |effects| == 3)
        && effects[0].Wrote?
        && effects[1] == BillingCalled(BillingRequestFor(effects[0].row))
        && (|effects| == 3 ==> effects[2] == EventSent(RecordFor(effects[0].row))))
  }

  /** A create whose email is already stored throws EmailAlreadyExists and changes
      nothing: no write, no billing call, no event. */
  lemma CreateRejectsTakenEmail(st: Store, req: PatientRequest, parse: DateParser, reply: BillingReply)
    requires ExistsByEmail(st.rows, req.email)
    ensures Create(st, req, parse, reply) == Step(st, [], Failure(EmailAlreadyExists))
  {
  }

  /** Every create issues its effects in the order write, billing, event, all about
      the same row; it succeeds exactly when all three were issued. */
  lemma CreateEffectsInOrder(st: Store, req: PatientRequest, parse: DateParser, reply: BillingReply)
    ensures CreateTrace(Create(st, req, parse, reply).effects)
    ensures Create(st, req, parse, reply).result.Success? <==> |Create(st, req, parse, reply).effects| == 3
  {
  }

  /** A create with a new email and valid dates adds exactly one patient, under a new
      identifier, with the requested fields; bills it once with its identifier text,
      name and email; and, when billing answers, sends one PATIENT_CREATED event for
      it and returns it.  When billing fails, the patient stays stored, the failure
      propagates and no event is sent. */
  lemma CreateAddsOnePatient(st: Store, req: PatientRequest, parse: DateParser, reply: BillingReply)
    requires StoreInvariant(st)
    requires !ExistsByEmail(st.rows, req.email)
    requires ToModel(req, parse).Some?
    ensures var o := Create(st, req, parse, reply);
      var row := RowOf(ToModel(req, parse).value, st.nextId);
      && st.nextId !in st.rows
      && o.store.rows == st.rows[st.nextId := row]
      && row.email == req.email && row.name == req.name && row.address == req.address
      && o.effects[..2] == [Wrote(row), BillingCalled(BillingRequest(IdString(row.id), req.name, req.email))]
      && (reply.TransportError? ==> o.effects == o.effects[..2] && o.result == Failure(BillingFailure))
      && (reply.Answered? ==> |o.effects| == 3 && o.result == Success(row))
  {
  }

  /** The event a create sends names the stored patient: its identifier reads back
      from the event's patientId, and name and email are the stored ones. */
  lemma CreatedEventNamesPatient(st: Store, req: PatientRequest, parse: DateParser, reply: BillingReply)
    ensures var o := Create(st, req, parse, reply);
      |o.effects| == 3 ==>
        && o.result.Success?
        && o.effects[2].EventSent?
        && o.effects[2].record.topic == "patient"
        && ParseId(o.effects[2].record.value.patientId) == Some(o.result.value.id)
        && o.effects[2].record.value.name == o.result.value.name
        && o.effects[2].record.value.email == o.result.value.email
        && o.effects[2].record.value.eventType == "PATIENT_CREATED"
  {
    var o := Create(st, req, parse, reply);
    if |o.effects| == 3 {
      ParseIdString(o.result.value.id);
    }
  }

  /** With the service's own check in front, the unique email column never rejects a
      create, and the table invariant is kept. */
  lemma CreateKeepsInvariant(st: Store, req: PatientRequest, parse: DateParser, reply: BillingReply)
    requires StoreInvariant(st)
    ensures var o := Create(st, req, parse, reply);
      StoreInvariant(o.store)
      && o.result != Failure(ConstraintViolation)
      && o.result != Failure(StaleEntity)
  {
  }

  /** An update of an unknown identifier throws PatientNotFound and changes nothing. */
  lemma UpdateUnknownId(st: Store, id: Uuid, req: PatientRequest, parse: DateParser)
    requires id !in st.rows
    ensures Update(st, id, req, parse) == Step(st, [], Failure(PatientNotFound))
  {
  }

  /** An update throws EmailAlreadyExists exactly when the patient exists and another
      patient holds the requested email; keeping one's own email is allowed. */
  lemma UpdateEmailConflict(st: Store, id: Uuid, req: PatientRequest, parse: DateParser)
    requires StoreInvariant(st)
    ensures Update(st, id, req, parse).result == Failure(EmailAlreadyExists)
        <==> id in st.rows && exists k :: k in st.rows && k != id && st.rows[k].email == req.email
    ensures id in st.rows && req.email == st.rows[id].email ==>
        Update(st, id, req, parse).result != Failure(EmailAlreadyExists)
  {
  }

  /** A successful update replaces name, address, email and date of birth, keeps the
      identifier and registration date, and leaves every other patient as it was.
      Any failure leaves the table unchanged. */
  lemma UpdateReplacesFields(st: Store, id: Uuid, req: PatientRequest, parse: DateParser)
    requires StoreInvariant(st)
    ensures var o := Update(st, id, req, parse);
      && StoreInvariant(o.store)
      && (o.result.Success? <==>
            id in st.rows && !ExistsByEmailAndIdNot(st.rows, req.email, id) && parse(req.dateOfBirth).Some?)
      && (o.result.Failure? ==> o.store == st && o.effects == [])
      && (o.result.Success? ==>
            var old_ := st.rows[id];
            var new_ := o.result.value;
            && new_ == PatientRow(id, req.name, req.email, req.address, parse(req.dateOfBirth).value, old_.registeredDate)
            && o.store.rows == st.rows[id := new_]
            && o.store.nextId == st.nextId
            && o.effects == [Wrote(new_)])
  {
  }

  class PatientService {
    const repo: PatientRepository
    /** The writes and calls issued so far, oldest first. */
    var trace: seq<Effect>

    ghost predicate Valid()
      reads this, repo
    {
      repo.Valid()
    }

    constructor (repo: PatientRepository)
      requires repo.Valid()
      ensures Valid() && this.repo == repo && trace == []
    {
      this.repo := repo;
      trace := [];
    }

    /** getPatients: one entry per stored patient. */
    method GetPatients() returns (patients: seq<PatientRow>)
      requires Valid()
      ensures |patients| == |repo.rows|
      ensures forall i | 0 <= i < |patients| :: patients[i].id in repo.rows && repo.rows[patients[i].id] == patients[i]
      ensures forall k | k in repo.rows :: exists i | 0 <= i < |patients| :: patients[i] == repo.rows[k]
    {
      patients := repo.FindAll();
    }

    /** createPatient. */
    method CreatePatient(req: PatientRequest, parse: DateParser, reply: BillingReply, sendThrows: bool)
      returns (r: Result<PatientRow, ServiceError>)
      requires Valid()
      modifies this, repo
      ensures Valid()
      ensures var o := Create(old(repo.Model()), req, parse, reply);
        repo.Model() == o.store && trace == old(trace) + o.effects && r == o.result
    {
      if ExistsByEmail(repo.rows, req.email) {
        return Failure(EmailAlreadyExists);
      }
      var dob := parse(req.dateOfBirth);
      var reg := parse(req.registeredDate);
      if dob.None? || reg.None? {
        return Failure(InvalidDate);
      }
      var newPatient := new Patient(req.name, req.email, req.address, dob.value, reg.value);
      assert !ExistsByEmailAndIdNot(repo.rows, req.email, repo.nextId);
      var saved := repo.Save(newPatient);
      assert saved.Saved?;
      trace := trace + [Wrote(saved.row)];

      trace := trace + [BillingCalled(BillingRequest(IdString(newPatient.id.value), newPatient.name, newPatient.email))];
      if reply.TransportError? {
        return Failure(BillingFailure);
      }

      var sent := SendEvent(newPatient, sendThrows);
      trace := trace + [EventSent(sent.value)];
      r := Success(saved.row);
    }

    /** updatePatient. */
    method UpdatePatient(id: Uuid, req: PatientRequest, parse: DateParser)
      returns (r: Result<PatientRow, ServiceError>)
      requires Valid()
      modifies this, repo
      ensures Valid()
      ensures var o := Update(old(repo.Model()), id, req, parse);
        repo.Model() == o.store && trace == old(trace) + o.effects && r == o.result
    {
      var found := repo.FindById(id);
      if found.None? {
        return Failure(PatientNotFound);
      }
      var patient := found.value;
      if ExistsByEmailAndIdNot(repo.rows, req.email, id) {
        return Failure(EmailAlreadyExists);
      }
      patient.SetName(req.name);
      patient.SetAddress(req.address);
      patient.SetEmail(req.email);
      var dob := parse(req.dateOfBirth);
      if dob.None? {
        return Failure(InvalidDate);
      }
      patient.SetDateOfBirth(dob.value);
      var saved := repo.Save(patient);
      assert saved.Saved?;
      trace := trace + [Wrote(saved.row)];
      r := Success(saved.row);
    }

    /** deletePatient: removes that patient, if stored; deleting twice is deleting once. */
    method DeletePatient(id: Uuid)
      requires Valid()
      modifies this, repo
      ensures Valid()
      ensures repo.Model() == StoreDelete(old(repo.Model()), id)
      ensures trace == old(trace) + [Deleted(id)]
    {
      repo.DeleteById(id);
      trace := trace + [Deleted(id)];
    }
  }
}
