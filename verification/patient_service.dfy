/** The patient service: field validation that reports every failing field at
    once, and add / get / update / delete layered over the patient store with
    three checks -- the body id matches the path id, emails stay unique, and a
    patient with encounters cannot be deleted. */
module PatientServices {
  import opened Common
  import SC = StringConstants
  import opened Patterns
  import opened Patients
  import opened Encounters
  import opened Repositories
  import EncounterServices

  // ---------------------------------------------------------------------------
  // Validation: the message each field contributes, in the order checked.
  // ---------------------------------------------------------------------------

  /** First and last name: required, then `^[a-zA-Z'-]+$`. */
  function NameMessage(field: string, invalid: string, s: string): (m: string)
    ensures invalid != "" ==> (m == "" <==> NamePattern(s))
    ensures s == "" ==> m == SC.Required(field)
    ensures s != "" && !NamePattern(s) ==> m == invalid
  {
    if s == "" then SC.Required(field)
    else if !NamePattern(s) then invalid
    else ""
  }

  function SsnMessage(s: string): (m: string)
    ensures m == "" <==> SsnPattern(s)
    ensures s == "" ==> m == SC.Required("Social Security Number")
    ensures s != "" && !SsnPattern(s) ==> m == SC.BadRequestSsn
  {
    if s == "" then SC.Required("Social Security Number")
    else if !SsnPattern(s) then SC.BadRequestSsn
    else ""
  }

  /** Street, city and insurance are only compared with "": null passes. */
  function PresenceMessage(field: string, v: Option<string>): (m: string)
    ensures m == "" <==> v != Some("")
    ensures v == Some("") ==> m == SC.Required(field)
  {
    if v == Some("") then SC.Required(field) else ""
  }

  /** State is a chain: required, else two letters, else one of `validStates`. */
  function StateMessage(s: string, validStates: set<string>): (m: string)
    ensures m == "" <==> StateCodePattern(s) && s in validStates
    ensures s == "" ==> m == SC.Required("State")
    ensures s != "" && !StateCodePattern(s) ==> m == SC.BadRequestStateCode
    ensures StateCodePattern(s) && s !in validStates ==> m == SC.BadRequestState
  {
    if s == "" then SC.Required("State")
    else if !StateCodePattern(s) then SC.BadRequestStateCode
    else if s !in validStates then SC.BadRequestState
    else ""
  }

  function PostalMessage(s: string): (m: string)
    ensures m == "" <==> MatchesShape(s, ZipShape) || MatchesShape(s, ZipPlusFourShape)
    ensures s == "" ==> m == SC.Required("Zip Code")
    ensures s != "" && !MatchesShape(s, ZipShape) && !MatchesShape(s, ZipPlusFourShape) ==> m == SC.BadRequestZipCode
  {
    if s == "" then SC.Required("Zip Code")
    else if !MatchesShape(s, ZipShape) && !MatchesShape(s, ZipPlusFourShape) then SC.BadRequestZipCode
    else ""
  }

  function EmailMessage(s: string): (m: string)
    ensures m == "" <==> EmailPattern(s)
    ensures s == "" ==> m == SC.Required("Email")
    ensures s != "" && !EmailPattern(s) ==> m == SC.BadRequestEmail
  {
    if s == "" then SC.Required("Email")
    else if !EmailPattern(s) then SC.BadRequestEmail
    else ""
  }

  /** Age, height and weight: anything not above 0 is reported as missing. */
  function PositiveMessage(field: string, n: int): (m: string)
    ensures m == "" <==> n > 0
    ensures !(n > 0) ==> m == SC.Required(field)
  {
    if !(n > 0) then SC.Required(field) else ""
  }

  function GenderMessage(s: string): (m: string)
    ensures m == "" <==> s in {"Male", "Female", "Other"}
    ensures s == "" ==> m == SC.Required("Gender")
    ensures s != "" && s !in {"Male", "Female", "Other"} ==> m == SC.BadRequestGender
  {
    if s == "" then SC.Required("Gender")
    else if s != "Male" && s != "Female" && s != "Other" then SC.BadRequestGender
    else ""
  }

  /** One message per checked field, "" for a field that passes. */
  function PatientMessages(r: PatientRecord, validStates: set<string>): (ms: seq<string>)
    requires r.Validatable()
    ensures |ms| == 13
  {
    [ NameMessage("First Name", SC.BadRequestFirstName, r.firstName.value),
      NameMessage("Last Name", SC.BadRequestLastName, r.lastName.value),
      SsnMessage(r.ssn.value),
      PresenceMessage("Street", r.street),
      PresenceMessage("City", r.city),
      StateMessage(r.state.value, validStates),
      PostalMessage(r.postal.value),
      EmailMessage(r.email.value),
      PositiveMessage("Age", r.age),
      PositiveMessage("Height", r.height),
      PositiveMessage("Weight", r.weight),
      PresenceMessage("Insurance", r.insurance),
      GenderMessage(r.gender.value) ]
  }

  /** The field rules stated directly, with the email rule read as its regular
      expression: the reference the validator is checked against. */
  ghost predicate PatientConforms(r: PatientRecord, validStates: set<string>)
    requires r.Validatable()
  {
    && NamePattern(r.firstName.value)
    && NamePattern(r.lastName.value)
    && SsnPattern(r.ssn.value)
    && r.street != Some("")
    && r.city != Some("")
    && StateCodePattern(r.state.value) && r.state.value in validStates
    && (MatchesShape(r.postal.value, ZipShape) || MatchesShape(r.postal.value, ZipPlusFourShape))
    && EmailShape(r.email.value)
    && r.age > 0 && r.height > 0 && r.weight > 0
    && r.insurance != Some("")
    && r.gender.value in {"Male", "Female", "Other"}
  }

  /** The first six field messages are empty exactly when their rules hold. */
  lemma NameToStateMessagesEmptyIff(r: PatientRecord, validStates: set<string>)
    requires r.Validatable()
    ensures var ms := PatientMessages(r, validStates);
      && (ms[0] == "" <==> NamePattern(r.firstName.value))
      && (ms[1] == "" <==> NamePattern(r.lastName.value))
      && (ms[2] == "" <==> SsnPattern(r.ssn.value))
      && (ms[3] == "" <==> r.street != Some(""))
      && (ms[4] == "" <==> r.city != Some(""))
      && (ms[5] == "" <==> StateCodePattern(r.state.value) && r.state.value in validStates)
  {
  }

  /** The last seven field messages are empty exactly when their rules hold. */
  lemma PostalToGenderMessagesEmptyIff(r: PatientRecord, validStates: set<string>)
    requires r.Validatable()
    ensures var ms := PatientMessages(r, validStates);
      && (ms[6] == "" <==> MatchesShape(r.postal.value, ZipShape) || MatchesShape(r.postal.value, ZipPlusFourShape))
      && (ms[7] == "" <==> EmailShape(r.email.value))
      && (ms[8] == "" <==> r.age > 0)
      && (ms[9] == "" <==> r.height > 0)
      && (ms[10] == "" <==> r.weight > 0)
      && (ms[11] == "" <==> r.insurance != Some(""))
      && (ms[12] == "" <==> r.gender.value in {"Male", "Female", "Other"})
  {
    EmailPatternIsShape(r.email.value);
  }

  /** Each field's message is empty exactly when that field passes its rule. */
  lemma PatientMessagesEmptyIff(r: PatientRecord, validStates: set<string>)
    requires r.Validatable()
    ensures (forall i :: 0 <= i < 13 ==> PatientMessages(r, validStates)[i] == "")
            <==> PatientConforms(r, validStates)
  {
    var ms := PatientMessages(r, validStates);
    NameToStateMessagesEmptyIff(r, validStates);
    PostalToGenderMessagesEmptyIff(r, validStates);
    if PatientConforms(r, validStates) {
      forall i | 0 <= i < 13
        ensures ms[i] == ""
      {
        assert i in {0, 1, 2, 3, 4, 5, 6, 7, 8, 9, 10, 11, 12};
      }
    }
  }

  /** The text validation leaves in `errorMessage`: all field messages appended
      in order. It is empty -- the patient is valid -- exactly when every field
      rule holds. */
  function PatientErrors(r: PatientRecord, validStates: set<string>): (m: string)
    requires r.Validatable()
    ensures m == "" <==> PatientConforms(r, validStates)
  {
    var ms := PatientMessages(r, validStates);
    AccumulatedEmptyIff(ms, 13);
    PatientMessagesEmptyIff(r, validStates);
    Concat(ms)
  }

  /** The accumulated text spelled out: each field's message appended in turn. */
  lemma PatientErrorsInOrder(r: PatientRecord, validStates: set<string>)
    requires r.Validatable()
    ensures PatientErrors(r, validStates) == ""
      + NameMessage("First Name", SC.BadRequestFirstName, r.firstName.value)
      + NameMessage("Last Name", SC.BadRequestLastName, r.lastName.value)
      + SsnMessage(r.ssn.value)
      + PresenceMessage("Street", r.street)
      + PresenceMessage("City", r.city)
      + StateMessage(r.state.value, validStates)
      + PostalMessage(r.postal.value)
      + EmailMessage(r.email.value)
      + PositiveMessage("Age", r.age)
      + PositiveMessage("Height", r.height)
      + PositiveMessage("Weight", r.weight)
      + PresenceMessage("Insurance", r.insurance)
      + GenderMessage(r.gender.value)
  {
    var ms := PatientMessages(r, validStates);
    assert Accumulated(ms, 1) == "" + ms[0];
    assert Accumulated(ms, 2) == Accumulated(ms, 1) + ms[1];
    assert Accumulated(ms, 3) == Accumulated(ms, 2) + ms[2];
    assert Accumulated(ms, 4) == Accumulated(ms, 3) + ms[3];
    assert Accumulated(ms, 5) == Accumulated(ms, 4) + ms[4];
    assert Accumulated(ms, 6) == Accumulated(ms, 5) + ms[5];
    assert Accumulated(ms, 7) == Accumulated(ms, 6) + ms[6];
    assert Accumulated(ms, 8) == Accumulated(ms, 7) + ms[7];
    assert Accumulated(ms, 9) == Accumulated(ms, 8) + ms[8];
    assert Accumulated(ms, 10) == Accumulated(ms, 9) + ms[9];
    assert Accumulated(ms, 11) == Accumulated(ms, 10) + ms[10];
    assert Accumulated(ms, 12) == Accumulated(ms, 11) + ms[11];
    assert Accumulated(ms, 13) == Accumulated(ms, 12) + ms[12];
  }

  /** Validation does not stop at the first failure: every field's message
      appears in the accumulated text. */
  lemma EveryFailingFieldReported(r: PatientRecord, validStates: set<string>, i: nat)
    requires r.Validatable() && i < 13
    ensures IsInfix(PatientMessages(r, validStates)[i], PatientErrors(r, validStates))
  {
    AccumulatedHasEach(PatientMessages(r, validStates), 13, i);
  }

  /** Each of the first six fields contributes at most one message: nothing,
      its "is a required field" text, or its own invalid-value text (state
      has two of those). */
  lemma NameToStateAtMostOneMessage(r: PatientRecord, validStates: set<string>)
    requires r.Validatable()
    ensures var ms := PatientMessages(r, validStates);
      && ms[0] in {"", SC.Required("First Name"), SC.BadRequestFirstName}
      && ms[1] in {"", SC.Required("Last Name"), SC.BadRequestLastName}
      && ms[2] in {"", SC.Required("Social Security Number"), SC.BadRequestSsn}
      && ms[3] in {"", SC.Required("Street")}
      && ms[4] in {"", SC.Required("City")}
      && ms[5] in {"", SC.Required("State"), SC.BadRequestStateCode, SC.BadRequestState}
  {
  }

  /** Each of the last seven fields contributes at most one message. */
  lemma PostalToGenderAtMostOneMessage(r: PatientRecord, validStates: set<string>)
    requires r.Validatable()
    ensures var ms := PatientMessages(r, validStates);
      && ms[6] in {"", SC.Required("Zip Code"), SC.BadRequestZipCode}
      && ms[7] in {"", SC.Required("Email"), SC.BadRequestEmail}
      && ms[8] in {"", SC.Required("Age")}
      && ms[9] in {"", SC.Required("Height")}
      && ms[10] in {"", SC.Required("Weight")}
      && ms[11] in {"", SC.Required("Insurance")}
      && ms[12] in {"", SC.Required("Gender"), SC.BadRequestGender}
  {
  }

  /** The id is never checked: validation reads the same with any id. */
  lemma IdNotChecked(r: PatientRecord, validStates: set<string>, id: Option<int>)
    requires r.Validatable()
    ensures PatientErrors(r.(id := id), validStates) == PatientErrors(r, validStates)
  {
    assert PatientMessages(r.(id := id), validStates) == PatientMessages(r, validStates);
  }

  /** A valid patient moved to a two-letter state outside the valid set fails
      with "Invalid state " and nothing else. */
  lemma OnlyStateOutsideSetFails(r: PatientRecord, validStates: set<string>, code: string)
    requires r.Validatable() && PatientConforms(r, validStates)
    requires StateCodePattern(code) && code !in validStates
    ensures PatientErrors(r.(state := Some(code)), validStates) == SC.BadRequestState
  {
    var r' := r.(state := Some(code));
    var ms := PatientMessages(r, validStates);
    var ms' := PatientMessages(r', validStates);
    PatientMessagesEmptyIff(r, validStates);
    forall i | 0 <= i < 13 && i != 5
      ensures ms'[i] == ""
    {
      assert ms'[i] == ms[i];
    }
    AccumulatedOfOne(ms', 13, 5);
  }

  /** The sample patient of the service's unit tests (id 1, state "AZ"). */
  const Zaref: PatientRecord :=
    PatientRecord(Some(1), Some("Zaref"), Some("Dragneel"), Some("111-11-1111"),
                  Some("spriggan@alvarez.gov"), Some("1 Royal Way"), Some("Alvarez"), Some("AZ"),
                  Some("12345"), 425, 68, 150, Some("Curse of Ankhseram"), Some("Male"))

  /** The sample patient passes validation wherever "AZ" is a valid state. */
  lemma ZarefIsValid(validStates: set<string>)
    requires "AZ" in validStates
    ensures PatientConforms(Zaref, validStates)
    ensures PatientErrors(Zaref, validStates) == ""
  {
    assert NamePattern("Zaref") && NamePattern("Dragneel");
    assert SsnPattern("111-11-1111");
    assert StateCodePattern("AZ");
    assert MatchesShape("12345", ZipShape);
    var email := "spriggan@alvarez.gov";
    assert email[8] == '@' && email[16] == '.';
    assert AllAlphanumeric(email[..8]) && AllLetters(email[9..16]) && AllLetters(email[17..]);
    assert EmailShape(email);
  }

  // ---------------------------------------------------------------------------
  // The store-level invariant and the outcome of each operation on tables.
  // ---------------------------------------------------------------------------

  /** Every stored patient has an email, and no two share one (the email
      column is unique). */
  ghost predicate EmailsUnique(t: Table<PatientRecord>)
  {
    && (forall k :: k in t.rows ==> t.rows[k].email.Some?)
    && (forall j, k :: j in t.rows && k in t.rows && j != k ==> t.rows[j].email != t.rows[k].email)
  }

  /** `addPatient` on a store `db`: the response and the store afterwards. */
  function AddPatientOutcome(db: Table<PatientRecord>, row: PatientRecord, validStates: set<string>)
    : (out: (Response<PatientRecord>, Table<PatientRecord>))
    requires row.Validatable()
    ensures out.0.BadData? <==> !PatientConforms(row, validStates)
    ensures out.0.BadData? ==> out.0.message == PatientErrors(row, validStates)
    ensures out.0.Conflict? <==> PatientConforms(row, validStates) && ExistsByEmail(db, row.email.value)
    ensures out.0.Conflict? ==> out.0.message == SC.EmailConflict
    ensures !out.0.NotFound?
    ensures !out.0.Ok? ==> out.1 == db
    ensures out.0.Ok? ==> out.0.value.id.Some? && out.0.value == row.(id := out.0.value.id)
    ensures out.0.Ok? && row.id.Some? ==> out.0.value.id == row.id
    ensures out.0.Ok? && row.id.None? && db.Valid() ==> out.0.value.id.value !in db.rows
    ensures out.0.Ok? ==> out.1.rows == db.rows[out.0.value.id.value := out.0.value]
    ensures out.0.Ok? ==> out.1.FindById(out.0.value.id.value) == Some(out.0.value)
    ensures db.Valid() ==> out.1.Valid()
  {
    var errors := PatientErrors(row, validStates);
    if errors != "" then (BadData(errors), db)
    else if ExistsByEmail(db, row.email.value) then (Conflict(SC.EmailConflict), db)
    else
      var (t, saved) := SavePatient(db, row);
      (Ok(saved), t)
  }

  /** A fresh email written at one key keeps the emails unique. */
  lemma PutFreshEmailKeepsUnique(db: Table<PatientRecord>, k: int, row: PatientRecord)
    requires EmailsUnique(db) && row.email.Some?
    requires !ExistsByEmail(db, row.email.value)
    ensures EmailsUnique(db.Put(k, row))
  {
    var t := db.Put(k, row);
    forall j, l | j in t.rows && l in t.rows && j != l
      ensures t.rows[j].email != t.rows[l].email
    {
      if j == k {
        assert db.rows[l] in db.rows.Values;
      } else if l == k {
        assert db.rows[j] in db.rows.Values;
      }
    }
  }

  /** Adding keeps every stored email unique. */
  lemma AddKeepsEmailsUnique(db: Table<PatientRecord>, row: PatientRecord, validStates: set<string>)
    requires row.Validatable() && EmailsUnique(db)
    ensures EmailsUnique(AddPatientOutcome(db, row, validStates).1)
  {
    if PatientErrors(row, validStates) == "" && !ExistsByEmail(db, row.email.value) {
      var k := db.IdFor(row.id);
      PutFreshEmailKeepsUnique(db, k, row.(id := Some(k)));
    }
  }

  /** Creating twice with the same email: the second call conflicts and the
      store keeps the first. */
  lemma AddSameEmailTwiceConflicts(db: Table<PatientRecord>, first: PatientRecord, second: PatientRecord,
                                   validStates: set<string>)
    requires first.Validatable() && second.Validatable() && PatientConforms(second, validStates)
    requires AddPatientOutcome(db, first, validStates).0.Ok?
    requires second.email == first.email
    ensures var db' := AddPatientOutcome(db, first, validStates).1;
            AddPatientOutcome(db', second, validStates) == (Conflict(SC.EmailConflict), db')
  {
    var (r, db') := AddPatientOutcome(db, first, validStates);
    assert db'.rows[r.value.id.value] in db'.rows.Values;
  }

  /** `getPatientById` on a store. */
  function GetPatientByIdOutcome(db: Table<PatientRecord>, patientId: int): (r: Response<PatientRecord>)
    ensures r.Ok? <==> patientId in db.rows
    ensures r.Ok? ==> r.value == db.rows[patientId]
    ensures !r.Ok? ==> r == NotFound(SC.NotFound)
  {
    match db.FindById(patientId)
    case Some(p) => Ok(p)
    case None => NotFound(SC.NotFound)
  }

  /** `updatePatient(patientId, row)` on a store `db`. */
  function UpdatePatientOutcome(db: Table<PatientRecord>, patientId: int, row: PatientRecord,
                                validStates: set<string>)
    : (out: (Response<PatientRecord>, Table<PatientRecord>))
    requires row.id.Some? && (row.id == Some(patientId) ==> row.Validatable())
    ensures row.id != Some(patientId) ==> out == (BadData(SC.BadRequestId), db)
    ensures row.id == Some(patientId) ==>
              (out.0.BadData? <==> !PatientConforms(row, validStates)) &&
              (out.0.NotFound? <==> PatientConforms(row, validStates) && patientId !in db.rows) &&
              (out.0.Conflict? <==> PatientConforms(row, validStates) && patientId in db.rows &&
                                    db.rows[patientId].email != row.email &&
                                    ExistsByEmail(db, row.email.value))
    ensures row.id == Some(patientId) && out.0.BadData? ==> out.0.message == PatientErrors(row, validStates)
    ensures out.0.NotFound? ==> out.0.message == SC.NotFound
    ensures out.0.Conflict? ==> out.0.message == SC.EmailConflict
    ensures !out.0.Ok? ==> out.1 == db
    ensures out.0.Ok? ==> out.0.value == row && out.1.rows == db.rows[patientId := row]
    ensures out.0.Ok? ==> out.1.rows.Keys == db.rows.Keys
    ensures db.Valid() ==> out.1.Valid()
  {
    if row.id.value != patientId then (BadData(SC.BadRequestId), db)
    else
      var errors := PatientErrors(row, validStates);
      if errors != "" then (BadData(errors), db)
      else match db.FindById(patientId)
        case None => (NotFound(SC.NotFound), db)
        case Some(existing) =>
          var newEmailIsUnique := !ExistsByEmail(db, row.email.value);
          var emailIsSame := existing.email == row.email;
          if emailIsSame || newEmailIsUnique then
            var (t, saved) := SavePatient(db, row);
            (Ok(saved), t)
          else (Conflict(SC.EmailConflict), db)
  }

  /** Updating keeps every stored email unique. */
  lemma UpdateKeepsEmailsUnique(db: Table<PatientRecord>, patientId: int, row: PatientRecord,
                                validStates: set<string>)
    requires row.id.Some? && (row.id == Some(patientId) ==> row.Validatable())
    requires EmailsUnique(db)
    ensures EmailsUnique(UpdatePatientOutcome(db, patientId, row, validStates).1)
  {
    var (r, t) := UpdatePatientOutcome(db, patientId, row, validStates);
    if r.Ok? {
      if db.rows[patientId].email == row.email {
        forall j, l | j in t.rows && l in t.rows && j != l
          ensures t.rows[j].email != t.rows[l].email
        {
          assert t.rows[j].email == db.rows[j].email && t.rows[l].email == db.rows[l].email;
        }
      } else {
        PutFreshEmailKeepsUnique(db, patientId, row);
      }
    }
  }

  /** Some stored encounter refers to patient `patientId`. */
  ghost predicate HasEncounters(encounters: Table<EncounterRecord>, patientId: int)
  {
    exists k :: k in encounters.rows && encounters.rows[k].patientId == Some(patientId)
  }

  /** `deletePatient(patientId)` on the patient store `db`, given the encounter store. */
  function DeletePatientOutcome(db: Table<PatientRecord>, encounters: Table<EncounterRecord>, patientId: int)
    : (out: (Response<()>, Table<PatientRecord>))
    ensures out.0.NotFound? <==> patientId !in db.rows
    ensures out.0.Conflict? <==> patientId in db.rows && HasEncounters(encounters, patientId)
    ensures out.0.NotFound? ==> out.0.message == SC.NotFound
    ensures out.0.Conflict? ==> out.0.message == SC.UnableToDeletePatient
    ensures !out.0.BadData?
    ensures !out.0.Ok? ==> out.1 == db
    ensures out.0.Ok? ==> out.1.rows.Keys == db.rows.Keys - {patientId}
    ensures forall k :: k in out.1.rows ==> out.1.rows[k] == db.rows[k]
    ensures db.Valid() ==> out.1.Valid()
  {
    if patientId in db.rows then
      var found := FindEncountersByPatientId(encounters, patientId);
      FoundIffReferenced(encounters, patientId);
      if found == map[] then (Ok(()), db.Delete(patientId))
      else (Conflict(SC.UnableToDeletePatient), db)
    else (NotFound(SC.NotFound), db)
  }

  /** Every stored encounter's patientId, when set, names a stored patient. */
  ghost predicate EncountersReferToPatients(db: Table<PatientRecord>, encounters: Table<EncounterRecord>)
  {
    forall k :: k in encounters.rows && encounters.rows[k].patientId.Some? ==>
      encounters.rows[k].patientId.value in db.rows
  }

  /** The delete guard keeps encounters from pointing at deleted patients. */
  lemma DeleteKeepsReferences(db: Table<PatientRecord>, encounters: Table<EncounterRecord>, patientId: int)
    requires EncountersReferToPatients(db, encounters)
    ensures EncountersReferToPatients(DeletePatientOutcome(db, encounters, patientId).1, encounters)
  {
    var (r, t) := DeletePatientOutcome(db, encounters, patientId);
    if r.Ok? {
      forall k | k in encounters.rows && encounters.rows[k].patientId.Some?
        ensures encounters.rows[k].patientId.value in t.rows
      {
        assert encounters.rows[k].patientId.value != patientId;
      }
    }
  }

  /** Deleting conflicts exactly when listing the patient's encounters succeeds. */
  lemma DeleteConflictsIffEncountersListed(db: Table<PatientRecord>, encounters: Table<EncounterRecord>,
                                           patientId: int)
    requires patientId in db.rows
    ensures DeletePatientOutcome(db, encounters, patientId).0.Conflict?
            <==> EncounterServices.QueryByPatientIdOutcome(encounters, patientId).Ok?
  {
  }

  // ---------------------------------------------------------------------------
  // The service object.
  // ---------------------------------------------------------------------------

  class PatientService {
    const patientRepository: Repository<PatientRecord>
    const encounterRepository: Repository<EncounterRecord>
    /** The valid state codes (the ValidStates helper's list). */
    const validStates: set<string>
    /** The text of the last validation, shared by every call. */
    var errorMessage: string

    ghost predicate Valid()
      reads this, patientRepository
    {
      patientRepository.table.Valid() && EmailsUnique(patientRepository.table)
    }

    constructor (patientRepository: Repository<PatientRecord>,
                 encounterRepository: Repository<EncounterRecord>, validStates: set<string>)
      requires patientRepository.table.Valid() && EmailsUnique(patientRepository.table)
      ensures Valid() && errorMessage == ""
      ensures this.patientRepository == patientRepository
      ensures this.encounterRepository == encounterRepository
      ensures this.validStates == validStates
    {
      this.patientRepository := patientRepository;
      this.encounterRepository := encounterRepository;
      this.validStates := validStates;
      errorMessage := "";
    }

    /** `queryPatients`: an empty sample lists every stored patient; any other
        sample is handed to the store's example matching. */
    method QueryPatients(patient: Patient) returns (r: Listing<PatientRecord>)
      ensures patient.Record().IsEmpty() ==> r == Everything(patientRepository.table.rows)
      ensures !patient.Record().IsEmpty() ==> r == ByExample(patient.Record())
    {
      if patient.Record().IsEmpty() {
        r := Everything(patientRepository.table.rows);
      } else {
        r := ByExample(patient.Record());
      }
    }

    /** `getPatientById`. */
    method GetPatientById(patientId: int) returns (r: Response<PatientRecord>)
      ensures r == GetPatientByIdOutcome(patientRepository.table, patientId)
      ensures r.Ok? <==> patientId in patientRepository.table.rows
      ensures r.Ok? ==> r.value == patientRepository.table.rows[patientId]
      ensures !r.Ok? ==> r == NotFound(SC.NotFound)
    {
      var patient := patientRepository.table.FindById(patientId);
      if patient.Some? {
        return Ok(patient.value);
      }
      return NotFound(SC.NotFound);
    }

    /** `validatePatient`: resets `errorMessage`, appends each field's
        message in turn (empty when the field passes), and reports whether
        nothing was appended. */
    method ValidatePatient(patient: Patient) returns (valid: bool)
      requires patient.Record().Validatable()
      modifies this`errorMessage
      ensures errorMessage == PatientErrors(patient.Record(), validStates)
      ensures valid <==> errorMessage == ""
    {
      PatientErrorsInOrder(patient.Record(), validStates);
      errorMessage := "";
      errorMessage := errorMessage + NameMessage("First Name", SC.BadRequestFirstName, patient.firstName.value);
      errorMessage := errorMessage + NameMessage("Last Name", SC.BadRequestLastName, patient.lastName.value);
      errorMessage := errorMessage + SsnMessage(patient.ssn.value);
      errorMessage := errorMessage + PresenceMessage("Street", patient.street);
      errorMessage := errorMessage + PresenceMessage("City", patient.city);
      errorMessage := errorMessage + StateMessage(patient.state.value, validStates);
      errorMessage := errorMessage + PostalMessage(patient.postal.value);
      errorMessage := errorMessage + EmailMessage(patient.email.value);
      errorMessage := errorMessage + PositiveMessage("Age", patient.age);
      errorMessage := errorMessage + PositiveMessage("Height", patient.height);
      errorMessage := errorMessage + PositiveMessage("Weight", patient.weight);
      errorMessage := errorMessage + PresenceMessage("Insurance", patient.insurance);
      errorMessage := errorMessage + GenderMessage(patient.gender.value);
      valid := errorMessage == "";
    }

    /** `addPatient`. */
    method AddPatient(patient: Patient) returns (r: Response<PatientRecord>)
      requires Valid() && patient.Record().Validatable()
      modifies this`errorMessage, patientRepository
      ensures Valid()
      ensures (r, patientRepository.table)
              == AddPatientOutcome(old(patientRepository.table), patient.Record(), validStates)
      ensures errorMessage == PatientErrors(patient.Record(), validStates)
    {
      var valid := ValidatePatient(patient);
      if !valid {
        return BadData(errorMessage);
      }
      var emailAlreadyExists := ExistsByEmail(patientRepository.table, patient.email.value);
      if !emailAlreadyExists {
        AddKeepsEmailsUnique(patientRepository.table, patient.Record(), validStates);
        var saved := SavePatientRow(patientRepository, patient.Record());
        return Ok(saved);
      }
      return Conflict(SC.EmailConflict);
    }

    /** `updatePatient`: the id check comes before validation. */
    method UpdatePatient(patientId: int, patient: Patient) returns (r: Response<PatientRecord>)
      requires Valid() && patient.id.Some?
      requires patient.id == Some(patientId) ==> patient.Record().Validatable()
      modifies this`errorMessage, patientRepository
      ensures Valid()
      ensures (r, patientRepository.table)
              == UpdatePatientOutcome(old(patientRepository.table), patientId, patient.Record(), validStates)
      ensures patient.id != Some(patientId) ==> errorMessage == old(errorMessage)
      ensures patient.id == Some(patientId) ==> errorMessage == PatientErrors(patient.Record(), validStates)
    {
      var newEmail := patient.email;
      if patient.id.value != patientId {
        return BadData(SC.BadRequestId);
      }
      var valid := ValidatePatient(patient);
      if !valid {
        return BadData(errorMessage);
      }
      var existingPatient := patientRepository.table.FindById(patientId);
      if existingPatient.Some? {
        var currentEmail := existingPatient.value.email;
        var newEmailIsUnique := !ExistsByEmail(patientRepository.table, newEmail.value);
        var emailIsSame := currentEmail == newEmail;
        if emailIsSame || newEmailIsUnique {
          UpdateKeepsEmailsUnique(patientRepository.table, patientId, patient.Record(), validStates);
          var saved := SavePatientRow(patientRepository, patient.Record());
          return Ok(saved);
        }
        return Conflict(SC.EmailConflict);
      }
      return NotFound(SC.NotFound);
    }

    /** `deletePatient`. */
    method DeletePatient(patientId: int) returns (r: Response<()>)
      requires Valid()
      modifies patientRepository
      ensures Valid()
      ensures (r, patientRepository.table)
              == DeletePatientOutcome(old(patientRepository.table), encounterRepository.table, patientId)
    {
      if patientId in patientRepository.table.rows {
        var encounters := FindEncountersByPatientId(encounterRepository.table, patientId);
        if encounters == map[] {
          patientRepository.DeleteById(patientId);
          return Ok(());
        }
        return Conflict(SC.UnableToDeletePatient);
      }
      return NotFound(SC.NotFound);
    }
  }
}
