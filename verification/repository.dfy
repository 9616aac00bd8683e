/** The stores behind the services: one table of rows per entity, keyed by id,
    with an identity column that hands out the next id. `save` writes a row at
    its own id, or at a fresh id when the row has none. */
module Repositories {
  import opened Common
  import opened Patients
  import opened Encounters

  /** The rows of a table and the next value of its identity column. */
  datatype Table<T> = Table(rows: map<int, T>, nextId: int)
  {
    /** Every stored id was handed out before `nextId`. */
    ghost predicate Valid()
    {
      forall k :: k in rows ==> k < nextId
    }

    /** `findById`. */
    function FindById(id: int): (r: Option<T>)
      ensures r.Some? <==> id in rows
      ensures r.Some? ==> r.value == rows[id]
    {
      if id in rows then Some(rows[id]) else None
    }

    /** The id `save` uses for a row whose own id is `requested`. */
    function IdFor(requested: Option<int>): (k: int)
      ensures requested.Some? ==> k == requested.value
      ensures requested.None? && Valid() ==> k !in rows
    {
      if requested.Some? then requested.value else nextId
    }

    /** Writes `row` at `k`, advancing the identity column past `k`. */
    function Put(k: int, row: T): (t: Table<T>)
      ensures t.rows == rows[k := row]
      ensures Valid() ==> t.Valid()
    {
      Table(rows[k := row], if k < nextId then nextId else k + 1)
    }

    /** `deleteById`. */
    function Delete(id: int): (t: Table<T>)
      ensures t.rows.Keys == rows.Keys - {id}
      ensures forall k :: k in t.rows ==> t.rows[k] == rows[k]
      ensures Valid() ==> t.Valid()
    {
      Table(rows - {id}, nextId)
    }
  }

  /** `save` for patients: a row with an id is written at that id; a row
      without one is written at an id no stored row uses. The returned row is
      the input with its id filled in, and it is exactly what the table now
      holds at that id; every other row is as it was. */
  function SavePatient(t: Table<PatientRecord>, row: PatientRecord): (out: (Table<PatientRecord>, PatientRecord))
    ensures out.1.id.Some? && out.1 == row.(id := out.1.id)
    ensures row.id.Some? ==> out.1.id == row.id
    ensures row.id.None? && t.Valid() ==> out.1.id.value !in t.rows
    ensures out.0.rows == t.rows[out.1.id.value := out.1]
    ensures t.Valid() ==> out.0.Valid()
  {
    var k := t.IdFor(row.id);
    var saved := row.(id := Some(k));
    (t.Put(k, saved), saved)
  }

  /** `save` for encounters: the same contract as `SavePatient`. */
  function SaveEncounter(t: Table<EncounterRecord>, row: EncounterRecord): (out: (Table<EncounterRecord>, EncounterRecord))
    ensures out.1.id.Some? && out.1 == row.(id := out.1.id)
    ensures row.id.Some? ==> out.1.id == row.id
    ensures row.id.None? && t.Valid() ==> out.1.id.value !in t.rows
    ensures out.0.rows == t.rows[out.1.id.value := out.1]
    ensures t.Valid() ==> out.0.Valid()
  {
    var k := t.IdFor(row.id);
    var saved := row.(id := Some(k));
    (t.Put(k, saved), saved)
  }

  /** `existsByEmail`: some stored patient has exactly this (non-null) email. */
  predicate ExistsByEmail(t: Table<PatientRecord>, email: string)
  {
    exists r :: r in t.rows.Values && r.email == Some(email)
  }

  /** `findEncountersByPatientId`: the stored encounters whose patientId is `patientId`. */
  function FindEncountersByPatientId(t: Table<EncounterRecord>, patientId: int): (m: map<int, EncounterRecord>)
    ensures m.Keys <= t.rows.Keys
    ensures forall k :: k in m ==> m[k] == t.rows[k]
    ensures forall k :: k in t.rows ==> (k in m <==> t.rows[k].patientId == Some(patientId))
  {
    map k | k in t.rows && t.rows[k].patientId == Some(patientId) :: t.rows[k]
  }

  /** The lookup comes back empty exactly when no stored encounter refers to the patient. */
  lemma FoundIffReferenced(t: Table<EncounterRecord>, patientId: int)
    ensures FindEncountersByPatientId(t, patientId) != map[]
            <==> exists k :: k in t.rows && t.rows[k].patientId == Some(patientId)
  {
    var m := FindEncountersByPatientId(t, patientId);
    if forall k :: k in t.rows ==> t.rows[k].patientId != Some(patientId) {
      assert forall k :: k !in m;
      assert m == map[];
    }
  }

  /** A store: the table of one entity type, changed in place by `save` and `deleteById`. */
  class Repository<T> {
    var table: Table<T>

    /** An empty table whose identity column starts at 1. */
    constructor ()
      ensures table == Table(map[], 1) && table.Valid()
    {
      table := Table(map[], 1);
    }

    /** Writes `row` at `k`. */
    method Put(k: int, row: T)
      modifies this
      ensures table == old(table).Put(k, row)
    {
      table := table.Put(k, row);
    }

    /** `deleteById`. */
    method DeleteById(id: int)
      modifies this
      ensures table == old(table).Delete(id)
    {
      table := table.Delete(id);
    }
  }

  /** `save` on the patient store: writes the row under its id, or a fresh one. */
  method SavePatientRow(repository: Repository<PatientRecord>, row: PatientRecord) returns (saved: PatientRecord)
    modifies repository
    ensures (repository.table, saved) == SavePatient(old(repository.table), row)
  {
    var k := repository.table.IdFor(row.id);
    saved := row.(id := Some(k));
    repository.Put(k, saved);
  }

  /** `save` on the encounter store: writes the row under its id, or a fresh one. */
  method SaveEncounterRow(repository: Repository<EncounterRecord>, row: EncounterRecord)
    returns (saved: EncounterRecord)
    modifies repository
    ensures (repository.table, saved) == SaveEncounter(old(repository.table), row)
  {
    var k := repository.table.IdFor(row.id);
    saved := row.(id := Some(k));
    repository.Put(k, saved);
  }
}
