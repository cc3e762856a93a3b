/**
 * The patient-created event (patient-service kafka/KafkaProducer.java).
 *
 * Building the event is a pure function of the patient; it fails when the patient
 * has no identifier (the source dereferences the identifier to render it).  The
 * send to the broker is best effort: a send that throws is logged and absorbed.
 */
module Kafka {
  import opened Outcomes
  import opened Ids
  import opened PatientEntity

  const PatientTopic: string := "patient"
  const PatientCreated: string := "PATIENT_CREATED"

  /** The PatientEvent message. */
  datatype PatientEvent = PatientEvent(patientId: string, name: string, email: string, eventType: string)

  /** What is handed to the broker client: a topic and the message. */
  datatype ProducerRecord = ProducerRecord(topic: string, value: PatientEvent)

  /** A fault raised while the event is built: the patient has no identifier. */
  datatype BuildError = MissingId

  /** The event for a patient: its identifier as text, its name and email, and the
      creation type.  The identifier can be read back from the event. */
  function BuildEvent(p: PatientState): (r: Result<PatientEvent, BuildError>)
    ensures r.Success? <==> p.id.Some?
    ensures r.Failure? ==> r.error == MissingId
    ensures r.Success? ==>
      && ParseId(r.value.patientId) == Some(p.id.value)
      && r.value.name == p.name
      && r.value.email == p.email
      && r.value.eventType == "PATIENT_CREATED"
  {
    match p.id
    case None => Failure(MissingId)
    case Some(id) =>
      ParseIdString(id);
      Success(PatientEvent(IdString(id), p.name, p.email, PatientCreated))
  }

  /** The record sent for a stored patient. */
  function RecordFor(row: PatientRow): ProducerRecord {
    ProducerRecord(PatientTopic, BuildEvent(StateOf(row)).value)
  }

  /**
   * sendEvent: builds the event, then hands one record to the broker.  A fault while
   * building propagates and nothing is sent.  `sendThrows` is whether the broker
   * client throws; that exception is caught, so the outcome does not depend on it.
   * The patient is only read.  The result is the record handed to the broker.
   */
  method SendEvent(p: Patient, sendThrows: bool) returns (r: Result<ProducerRecord, BuildError>)
    ensures r.Success? <==> p.id.Some?
    ensures r.Failure? ==> r.error == MissingId
    ensures r.Success? ==> r.value.topic == "patient" && Success(r.value.value) == BuildEvent(p.State())
    ensures p.id.Some? ==> r == Success(RecordFor(RowOf(p.State(), p.id.value)))
  {
    var event := BuildEvent(p.State());
    if event.Failure? {
      return Failure(event.error);
    }
    var record := ProducerRecord(PatientTopic, event.value);
    if sendThrows {
      // the send failed: the error is logged and not rethrown
    }
    r := Success(record);
  }
}
