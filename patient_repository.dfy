/**
 * The patient table (patient-service repository/PatientRepository.java and the
 * JpaRepository operations it inherits).
 *
 * The table maps identifiers to rows.  New rows get the next identifier from a
 * counter, standing in for the generated UUID.  The unique constraint on the email
 * column (Patient.java) is enforced by `StoreSave` independently of any check made
 * by the service.
 */
module PatientStore {
  import opened Outcomes
  import opened Ids
  import opened PatientEntity

  datatype Store = Store(rows: map<Uuid, PatientRow>, nextId: nat)

  /** No two stored patients share an email. */
  ghost predicate EmailsUnique(rows: map<Uuid, PatientRow>) {
    forall a, b | a in rows && b in rows && rows[a].email == rows[b].email :: a == b
  }

  /** Every row is stored under its own identifier, below the next one to be issued,
      and emails are unique. */
  ghost predicate StoreInvariant(st: Store) {
    (forall k | k in st.rows :: st.rows[k].id == k && k < st.nextId) && EmailsUnique(st.rows)
  }

  function Emails(rows: map<Uuid, PatientRow>): set<string> {
    set k | k in rows :: rows[k].email
  }

  /** existsByEmail. */
  function ExistsByEmail(rows: map<Uuid, PatientRow>, email: string): (b: bool)
    ensures b <==> exists k :: k in rows && rows[k].email == email
  {
    email in Emails(rows)
  }

  /** existsByEmailAndIdNot: the email belongs to a patient other than `id`. */
  function ExistsByEmailAndIdNot(rows: map<Uuid, PatientRow>, email: string, id: Uuid): (b: bool)
    ensures b <==> exists k :: k in rows && k != id && rows[k].email == email
    ensures b ==> ExistsByEmail(rows, email)
  {
    var others := rows - {id};
    assert forall k | k in others :: others[k] == rows[k];
    ExistsByEmail(others, email)
  }

  /** When `id` is the one holder of an email, no other patient holds it. */
  lemma OnlyHolderIsNotAnother(rows: map<Uuid, PatientRow>, email: string, id: Uuid)
    requires forall k | k in rows && rows[k].email == email :: k == id
    requires id in rows && rows[id].email == email
    ensures ExistsByEmail(rows, email)
    ensures !ExistsByEmailAndIdNot(rows, email, id)
  {
  }

  /** findById. */
  function StoreFind(st: Store, id: Uuid): (r: Option<PatientRow>)
    ensures r.Some? <==> id in st.rows
    ensures r.Some? ==> r.value == st.rows[id]
  {
    if id in st.rows then Some(st.rows[id]) else None
  }

  /** What save reports: the stored row, a violation of the unique email column, or
      an entity whose identifier is no longer stored (a merge that finds no row). */
  datatype SaveOutcome = Saved(row: PatientRow) | EmailTaken | Stale

  datatype Saving = Saving(store: Store, outcome: SaveOutcome)

  /** save: an entity without identifier is inserted under a new one; an entity with
      an identifier replaces its row.  A failed save changes nothing. */
  function StoreSave(st: Store, p: PatientState): (s: Saving)
    ensures s.outcome.Saved? ==>
      && s.store.rows == st.rows[s.outcome.row.id := s.outcome.row]
      && s.outcome.row == RowOf(p, s.outcome.row.id)
      && (p.id.Some? ==> s.outcome.row.id == p.id.value && s.store.nextId == st.nextId)
      && (p.id.None? ==> s.outcome.row.id == st.nextId && s.store.nextId == st.nextId + 1)
      && !ExistsByEmailAndIdNot(st.rows, p.email, s.outcome.row.id)
    ensures !s.outcome.Saved? ==> s.store == st
  {
    var id := if p.id.Some? then p.id.value else st.nextId;
    if p.id.Some? && id !in st.rows then Saving(st, Stale)
    else if ExistsByEmailAndIdNot(st.rows, p.email, id) then Saving(st, EmailTaken)
    else
      var row := RowOf(p, id);
      Saving(Store(st.rows[id := row], if p.id.None? then st.nextId + 1 else st.nextId), Saved(row))
  }

  /** deleteById: removes the key, if present. */
  function StoreDelete(st: Store, id: Uuid): (r: Store)
    ensures r.rows.Keys == st.rows.Keys - {id}
    ensures forall k | k in r.rows :: r.rows[k] == st.rows[k]
    ensures r.nextId == st.nextId
  {
    st.(rows := st.rows - {id})
  }

  /** save keeps the table's invariant, whatever it is asked to store. */
  lemma SavePreservesInvariant(st: Store, p: PatientState)
    requires StoreInvariant(st)
    ensures StoreInvariant(StoreSave(st, p).store)
  {
  }

  /** A save that succeeds stores the entity's fields under the reported row, leaves
      every other row as it was, and a new entity gets an identifier not in use. */
  lemma SaveThenFind(st: Store, p: PatientState)
    requires StoreInvariant(st)
    ensures var sv := StoreSave(st, p);
      sv.outcome.Saved? ==>
        StoreFind(sv.store, sv.outcome.row.id) == Some(sv.outcome.row)
        && sv.outcome.row == RowOf(p, sv.outcome.row.id)
        && (p.id.None? ==> sv.outcome.row.id !in st.rows)
        && (p.id.Some? ==> sv.outcome.row.id == p.id.value)
        && (forall k | k in st.rows && k != sv.outcome.row.id :: StoreFind(sv.store, k) == StoreFind(st, k))
  {
  }

  /** save fails exactly when the entity's identifier is no longer stored or another
      patient holds its email; a failure leaves the table unchanged. */
  lemma SaveFailsOnlyOnConflict(st: Store, p: PatientState)
    ensures var sv := StoreSave(st, p);
      (sv.outcome.Saved? <==>
        (p.id.None? || p.id.value in st.rows)
        && !ExistsByEmailAndIdNot(st.rows, p.email, if p.id.Some? then p.id.value else st.nextId))
      && (!sv.outcome.Saved? ==> sv.store == st)
  {
  }

  /** deleteById removes that key and no other, and deleting twice is deleting once. */
  lemma DeleteRemovesOnlyThatId(st: Store, id: Uuid)
    requires StoreInvariant(st)
    ensures StoreFind(StoreDelete(st, id), id) == None
    ensures forall k | k != id :: StoreFind(StoreDelete(st, id), k) == StoreFind(st, k)
    ensures StoreDelete(StoreDelete(st, id), id) == StoreDelete(st, id)
    ensures StoreInvariant(StoreDelete(st, id))
  {
  }

  class PatientRepository {
    var rows: map<Uuid, PatientRow>
    var nextId: nat

    function Model(): Store
      reads this
    {
      Store(rows, nextId)
    }

    ghost predicate Valid()
      reads this
    {
      StoreInvariant(Model())
    }

    /** An empty table. */
    constructor ()
      ensures Valid() && Model() == Store(map[], 0)
    {
      rows := map[];
      nextId := 0;
    }

    /** save: persists the entity; a new entity receives its identifier here. */
    method Save(p: Patient) returns (outcome: SaveOutcome)
      requires Valid()
      modifies this, p
      ensures Valid()
      ensures Saving(Model(), outcome) == StoreSave(old(Model()), old(p.State()))
      ensures p.State() == if outcome.Saved? then old(p.State()).(id := Some(outcome.row.id)) else old(p.State())
    {
      SavePreservesInvariant(Model(), p.State());
      var id: Uuid;
      if p.id.Some? {
        id := p.id.value;
        if id !in rows {
          return Stale;
        }
      } else {
        id := nextId;
      }
      if ExistsByEmailAndIdNot(rows, p.email, id) {
        return EmailTaken;
      }
      var row := PatientRow(id, p.name, p.email, p.address, p.dateOfBirth, p.registeredDate);
      rows := rows[id := row];
      if p.id.None? {
        nextId := nextId + 1;
        p.id := Some(id);
      }
      outcome := Saved(row);
    }

    /** findById: a fresh entity loaded from the row, or nothing. */
    method FindById(id: Uuid) returns (p: Option<Patient>)
      ensures p.Some? <==> id in rows
      ensures p.Some? ==> fresh(p.value) && p.value.State() == StateOf(rows[id])
    {
      if id !in rows {
        return None;
      }
      var r := rows[id];
      var patient := new Patient(r.name, r.email, r.address, r.dateOfBirth, r.registeredDate);
      patient.SetId(Some(r.id));
      p := Some(patient);
    }

    /** deleteById: removes the row if there is one; a missing id is not an error. */
    method DeleteById(id: Uuid)
      requires Valid()
      modifies this
      ensures Valid()
      ensures Model() == StoreDelete(old(Model()), id)
    {
      rows := rows - {id};
    }

    /** findAll: every stored row exactly once, in no particular order. */
    method FindAll() returns (all: seq<PatientRow>)
      requires Valid()
      ensures |all| == |rows|
      ensures forall i | 0 <= i < |all| :: all[i].id in rows && rows[all[i].id] == all[i]
      ensures forall i, j | 0 <= i < j < |all| :: all[i].id != all[j].id
      ensures forall k | k in rows :: exists i | 0 <= i < |all| :: all[i] == rows[k]
    {
      var pending := rows.Keys;
      all := [];
      while pending != {}
        invariant pending <= rows.Keys
        invariant |all| + |pending| == |rows|
        invariant forall i | 0 <= i < |all| :: all[i].id in rows.Keys - pending && rows[all[i].id] == all[i]
        invariant forall i, j | 0 <= i < j < |all| :: all[i].id != all[j].id
        invariant forall k | k in rows.Keys - pending :: exists i | 0 <= i < |all| :: all[i] == rows[k]
        decreases |pending|
      {
        var k :| k in pending;
        ghost var before := all;
        all := all + [rows[k]];
        assert forall i | 0 <= i < |before| :: all[i] == before[i];
        assert all[|all| - 1] == rows[k];
        pending := pending - {k};
      }
    }
  }
}
