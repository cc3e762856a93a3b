/**
 * The Patient entity (patient-service model/Patient.java).
 *
 * The entity is an object whose fields are updated one at a time through setters.
 * `PatientState` is the value of all its fields at one moment and `PatientRow` is
 * what the store holds once an identifier has been assigned.  The @NotNull columns
 * (name, email, address, dateOfBirth, registeredDate) have non-null types here; the
 * identifier is optional because the store assigns it on first save.
 */
module PatientEntity {
  import opened Outcomes
  import opened Ids

  /** java.time.LocalDate, as a count of days. */
  datatype Date = Date(epochDay: int)

  /** The values of a Patient's fields. */
  datatype PatientState = PatientState(
    id: Option<Uuid>,
    name: string,
    email: string,
    address: string,
    dateOfBirth: Date,
    registeredDate: Date)

  /** A stored patient: its identifier has been assigned. */
  datatype PatientRow = PatientRow(
    id: Uuid,
    name: string,
    email: string,
    address: string,
    dateOfBirth: Date,
    registeredDate: Date)

  /** The row that stores `s` under `id`. */
  function RowOf(s: PatientState, id: Uuid): PatientRow
  {
    PatientRow(id, s.name, s.email, s.address, s.dateOfBirth, s.registeredDate)
  }

  /** The entity loaded from a stored row. */
  function StateOf(r: PatientRow): (s: PatientState)
    ensures s.id == Some(r.id) && RowOf(s, r.id) == r
  {
    PatientState(Some(r.id), r.name, r.email, r.address, r.dateOfBirth, r.registeredDate)
  }

  class Patient {
    var id: Option<Uuid>
    var name: string
    var email: string
    var address: string
    var dateOfBirth: Date
    var registeredDate: Date

    /** All fields at once; the getters of the source read these fields. */
    function State(): PatientState
      reads this
    {
      PatientState(id, name, email, address, dateOfBirth, registeredDate)
    }

    /** A new, not yet stored entity: no identifier. */
    constructor (name: string, email: string, address: string, dateOfBirth: Date, registeredDate: Date)
      ensures State() == PatientState(None, name, email, address, dateOfBirth, registeredDate)
    {
      this.id := None;
      this.name := name;
      this.email := email;
      this.address := address;
      this.dateOfBirth := dateOfBirth;
      this.registeredDate := registeredDate;
    }

    method SetId(id: Option<Uuid>)
      modifies this
      ensures State() == old(State()).(id := id)
    {
      this.id := id;
    }

    method SetName(name: string)
      modifies this
      ensures State() == old(State()).(name := name)
    {
      this.name := name;
    }

    method SetEmail(email: string)
      modifies this
      ensures State() == old(State()).(email := email)
    {
      this.email := email;
    }

    method SetAddress(address: string)
      modifies this
      ensures State() == old(State()).(address := address)
    {
      this.address := address;
    }

    method SetDateOfBirth(birthDate: Date)
      modifies this
      ensures State() == old(State()).(dateOfBirth := birthDate)
    {
      this.dateOfBirth := birthDate;
    }

    method SetRegisteredDate(registrationDate: Date)
      modifies this
      ensures State() == old(State()).(registeredDate := registrationDate)
    {
      this.registeredDate := registrationDate;
    }
  }
}
