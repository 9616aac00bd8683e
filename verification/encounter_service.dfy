/** The encounter service: field validation that reports every failing field
    at once, and add / get / update / list-by-patient over the encounter store. */
module EncounterServices {
  import opened Common
  import SC = StringConstants
  import opened Patterns
  import opened Encounters
  import opened Repositories

  // ---------------------------------------------------------------------------
  // Validation: the message each field contributes, in the order checked.
  // ---------------------------------------------------------------------------

  function VisitCodeMessage(s: string): (m: string)
    ensures m == "" <==> VisitCodePattern(s)
    ensures s == "" ==> m == SC.Required("Visit code")
    ensures s != "" && !VisitCodePattern(s) ==> m == SC.InvalidVisitCode
  {
    if s == "" then SC.Required("Visit code")
    else if !VisitCodePattern(s) then SC.InvalidVisitCode
    else ""
  }

  function BillingCodeMessage(s: string): (m: string)
    ensures m == "" <==> BillingCodePattern(s)
    ensures s == "" ==> m == SC.Required("Billing code")
    ensures s != "" && !BillingCodePattern(s) ==> m == SC.InvalidBillingCode
  {
    if s == "" then SC.Required("Billing code")
    else if !BillingCodePattern(s) then SC.InvalidBillingCode
    else ""
  }

  function Icd10Message(s: string): (m: string)
    ensures m == "" <==> Icd10Pattern(s)
    ensures s == "" ==> m == SC.Required("Icd10")
    ensures s != "" && !Icd10Pattern(s) ==> m == SC.InvalidIcd10
  {
    if s == "" then SC.Required("Icd10")
    else if !Icd10Pattern(s) then SC.InvalidIcd10
    else ""
  }

  /** A required field with no pattern (provider, chief complaint). */
  function NonEmptyMessage(field: string, s: string): (m: string)
    ensures m == "" <==> s != ""
    ensures s == "" ==> m == SC.Required(field)
  {
    if s == "" then SC.Required(field) else ""
  }

  function TotalCostMessage(totalCost: real): (m: string)
    ensures m == "" <==> totalCost > 0.0
    ensures !(totalCost > 0.0) ==> m == SC.Required("Total cost")
  {
    if !(totalCost > 0.0) then SC.Required("Total cost") else ""
  }

  function DateMessage(date: Option<Date>): (m: string)
    ensures m == "" <==> date.Some?
    ensures date.None? ==> m == SC.Required("Date")
  {
    if date.None? then SC.Required("Date") else ""
  }

  /** One message per checked field, "" for a field that passes. Notes, copay,
      pulse, systolic and diastolic are not checked. */
  function EncounterMessages(r: EncounterRecord): (ms: seq<string>)
    requires r.Validatable()
    ensures |ms| == 7
  {
    [ VisitCodeMessage(r.visitCode.value),
      NonEmptyMessage("Provider", r.provider.value),
      BillingCodeMessage(r.billingCode.value),
      Icd10Message(r.icd10.value),
      TotalCostMessage(r.totalCost.value),
      NonEmptyMessage("Chief complaint", r.chiefComplaint.value),
      DateMessage(r.date) ]
  }

  /** The field rules stated directly: the reference the validator is checked against. */
  ghost predicate EncounterConforms(r: EncounterRecord)
    requires r.Validatable()
  {
    && VisitCodePattern(r.visitCode.value)
    && r.provider.value != ""
    && BillingCodePattern(r.billingCode.value)
    && Icd10Pattern(r.icd10.value)
    && r.totalCost.value > 0.0
    && r.chiefComplaint.value != ""
    && r.date.Some?
  }

  /** Each field's message is empty exactly when that field passes its rule. */
  lemma EncounterMessagesEmptyIff(r: EncounterRecord)
    requires r.Validatable()
    ensures (forall i :: 0 <= i < 7 ==> EncounterMessages(r)[i] == "") <==> EncounterConforms(r)
  {
    var ms := EncounterMessages(r);
    assert ms[0] == "" <==> VisitCodePattern(r.visitCode.value);
    assert ms[1] == "" <==> r.provider.value != "";
    assert ms[2] == "" <==> BillingCodePattern(r.billingCode.value);
    assert ms[3] == "" <==> Icd10Pattern(r.icd10.value);
    assert ms[4] == "" <==> r.totalCost.value > 0.0;
    assert ms[5] == "" <==> r.chiefComplaint.value != "";
    assert ms[6] == "" <==> r.date.Some?;
    if EncounterConforms(r) {
      forall i | 0 <= i < 7
        ensures ms[i] == ""
      {
        assert i in {0, 1, 2, 3, 4, 5, 6};
      }
    }
  }

  /** The text validation leaves in `errorMessage`: all field messages appended
      in order. It is empty -- the encounter is valid -- exactly when every
      field rule holds. */
  function EncounterErrors(r: EncounterRecord): (m: string)
    requires r.Validatable()
    ensures m == "" <==> EncounterConforms(r)
  {
    var ms := EncounterMessages(r);
    AccumulatedEmptyIff(ms, 7);
    EncounterMessagesEmptyIff(r);
    Concat(ms)
  }

  /** The accumulated text spelled out: each field's message appended in turn. */
  lemma EncounterErrorsInOrder(r: EncounterRecord)
    requires r.Validatable()
    ensures EncounterErrors(r) == ""
      + VisitCodeMessage(r.visitCode.value)
      + NonEmptyMessage("Provider", r.provider.value)
      + BillingCodeMessage(r.billingCode.value)
      + Icd10Message(r.icd10.value)
      + TotalCostMessage(r.totalCost.value)
      + NonEmptyMessage("Chief complaint", r.chiefComplaint.value)
      + DateMessage(r.date)
  {
    var ms := EncounterMessages(r);
    assert Accumulated(ms, 1) == "" + ms[0];
    assert Accumulated(ms, 2) == Accumulated(ms, 1) + ms[1];
    assert Accumulated(ms, 3) == Accumulated(ms, 2) + ms[2];
    assert Accumulated(ms, 4) == Accumulated(ms, 3) + ms[3];
    assert Accumulated(ms, 5) == Accumulated(ms, 4) + ms[4];
    assert Accumulated(ms, 6) == Accumulated(ms, 5) + ms[5];
    assert Accumulated(ms, 7) == Accumulated(ms, 6) + ms[6];
  }

  /** Validation does not stop at the first failure: every field's message
      appears in the accumulated text. */
  lemma EveryFailingFieldReported(r: EncounterRecord, i: nat)
    requires r.Validatable() && i < 7
    ensures IsInfix(EncounterMessages(r)[i], EncounterErrors(r))
  {
    AccumulatedHasEach(EncounterMessages(r), 7, i);
  }

  /** Notes, copay, pulse, systolic, diastolic and the two ids are never
      checked: changing them leaves the validation text as it was. */
  lemma UncheckedFieldsIgnored(r: EncounterRecord, id: Option<int>, patientId: Option<int>,
                               notes: Option<string>, copay: Option<real>, pulse: Option<int>,
                               systolic: Option<int>, diastolic: Option<int>)
    requires r.Validatable()
    ensures var r' := r.(id := id, patientId := patientId, notes := notes, copay := copay,
                         pulse := pulse, systolic := systolic, diastolic := diastolic);
            EncounterErrors(r') == EncounterErrors(r)
  {
    var r' := r.(id := id, patientId := patientId, notes := notes, copay := copay,
                 pulse := pulse, systolic := systolic, diastolic := diastolic);
    assert EncounterMessages(r') == EncounterMessages(r);
  }

  /** A total cost that is not positive is reported, whatever the other fields hold. */
  lemma NonPositiveCostFails(r: EncounterRecord)
    requires r.Validatable() && r.totalCost.value <= 0.0
    ensures EncounterErrors(r) != ""
    ensures IsInfix(SC.Required("Total cost"), EncounterErrors(r))
  {
    EveryFailingFieldReported(r, 4);
  }

  /** The first sample encounter of the service's unit tests, on the visit date `date`. */
  function SampleEncounter(date: Date): EncounterRecord
  {
    EncounterRecord(Some(1), Some(1), Some("Notes"), Some("A1B 2C3"), Some("Provider"),
                    Some("123.456.789-10"), Some("A12"), Some(154.36), Some(50.0),
                    Some("Chief complaint"), Some(60), Some(180), Some(98), Some(date))
  }

  /** The bad-data encounter of the service's unit tests, built with the
      13-argument constructor (so without an id). */
  const BadDataEncounter: EncounterRecord :=
    EncounterRecord(None, Some(1), Some("notes"), Some("visitCode"), Some("provider"),
                    Some("billingCode"), Some("icd10"), Some(0.0), Some(0.0), Some("complaint"),
                    Some(0), Some(0), Some(0), None)

  /** The sample encounter passes validation whatever its date; the bad-data
      encounter, with its placeholder codes, zero total cost and no date, has
      each of those five fields reported. */
  lemma SampleEncounterValidation(date: Date)
    ensures EncounterConforms(SampleEncounter(date))
    ensures && IsInfix(SC.InvalidVisitCode, EncounterErrors(BadDataEncounter))
            && IsInfix(SC.InvalidBillingCode, EncounterErrors(BadDataEncounter))
            && IsInfix(SC.InvalidIcd10, EncounterErrors(BadDataEncounter))
            && IsInfix(SC.Required("Total cost"), EncounterErrors(BadDataEncounter))
            && IsInfix(SC.Required("Date"), EncounterErrors(BadDataEncounter))
  {
    assert VisitCodePattern("A1B 2C3");
    assert BillingCodePattern("123.456.789-10");
    assert Icd10Pattern("A12");
    EveryFailingFieldReported(BadDataEncounter, 0);
    EveryFailingFieldReported(BadDataEncounter, 2);
    EveryFailingFieldReported(BadDataEncounter, 3);
    EveryFailingFieldReported(BadDataEncounter, 4);
    EveryFailingFieldReported(BadDataEncounter, 6);
  }

  // ---------------------------------------------------------------------------
  // The outcome of each operation on the encounter table.
  // ---------------------------------------------------------------------------

  /** `addEncounter` on a store `db`: the response and the store afterwards. */
  function AddEncounterOutcome(db: Table<EncounterRecord>, row: EncounterRecord)
    : (out: (Response<EncounterRecord>, Table<EncounterRecord>))
    requires row.Validatable()
    ensures out.0.BadData? <==> !EncounterConforms(row)
    ensures out.0.BadData? ==> out.0.message == EncounterErrors(row) && out.1 == db
    ensures out.0.Ok? <==> EncounterConforms(row)
    ensures out.0.Ok? ==> out.0.value.id.Some? && out.0.value == row.(id := out.0.value.id)
    ensures out.0.Ok? && row.id.Some? ==> out.0.value.id == row.id
    ensures out.0.Ok? && row.id.None? && db.Valid() ==> out.0.value.id.value !in db.rows
    ensures out.0.Ok? ==> out.1.rows == db.rows[out.0.value.id.value := out.0.value]
    ensures out.0.Ok? ==> out.1.FindById(out.0.value.id.value) == Some(out.0.value)
    ensures out.0.Ok? ==> forall k :: k in db.rows && k != out.0.value.id.value ==>
                            k in out.1.rows && out.1.rows[k] == db.rows[k]
    ensures db.Valid() ==> out.1.Valid()
  {
    var errors := EncounterErrors(row);
    if errors != "" then (BadData(errors), db)
    else
      var (t, saved) := SaveEncounter(db, row);
      (Ok(saved), t)
  }

  /** `getEncounterById` on a store. */
  function GetEncounterByIdOutcome(db: Table<EncounterRecord>, id: int): (r: Response<EncounterRecord>)
    ensures r.Ok? <==> id in db.rows
    ensures r.Ok? ==> r.value == db.rows[id]
    ensures !r.Ok? ==> r == NotFound(SC.NotFound)
  {
    match db.FindById(id)
    case Some(e) => Ok(e)
    case None => NotFound(SC.NotFound)
  }

  /** `queryEncounterByPatientId` on a store: the encounters of the patient,
      or NotFound when there are none. */
  function QueryByPatientIdOutcome(db: Table<EncounterRecord>, patientId: int)
    : (r: Response<map<int, EncounterRecord>>)
    ensures r.Ok? <==> exists k :: k in db.rows && db.rows[k].patientId == Some(patientId)
    ensures r.Ok? ==> r.value != map[]
    ensures r.Ok? ==> forall k :: k in db.rows ==> (k in r.value <==> db.rows[k].patientId == Some(patientId))
    ensures r.Ok? ==> forall k :: k in r.value ==> k in db.rows && r.value[k] == db.rows[k]
    ensures !r.Ok? ==> r == NotFound(SC.NotFound)
  {
    var found := FindEncountersByPatientId(db, patientId);
    FoundIffReferenced(db, patientId);
    if found != map[] then Ok(found) else NotFound(SC.NotFound)
  }

  /** `updateEncounterById(id, row)` on a store `db`. */
  function UpdateEncounterOutcome(db: Table<EncounterRecord>, id: int, row: EncounterRecord)
    : (out: (Response<EncounterRecord>, Table<EncounterRecord>))
    requires row.id.Some? && (row.id == Some(id) ==> row.Validatable())
    ensures row.id != Some(id) ==> out == (BadData(SC.BadRequestId), db)
    ensures row.id == Some(id) ==>
              (out.0.BadData? <==> !EncounterConforms(row)) &&
              (out.0.NotFound? <==> EncounterConforms(row) && id !in db.rows) &&
              (out.0.Ok? <==> EncounterConforms(row) && id in db.rows)
    ensures row.id == Some(id) && out.0.BadData? ==> out.0.message == EncounterErrors(row)
    ensures out.0.NotFound? ==> out.0.message == SC.NotFound
    ensures !out.0.Conflict?
    ensures !out.0.Ok? ==> out.1 == db
    ensures out.0.Ok? ==> out.0.value == row && out.1.rows == db.rows[id := row]
    ensures out.0.Ok? ==> out.1.rows.Keys == db.rows.Keys
    ensures db.Valid() ==> out.1.Valid()
  {
    if row.id.value != id then (BadData(SC.BadRequestId), db)
    else
      var errors := EncounterErrors(row);
      if errors != "" then (BadData(errors), db)
      else if db.FindById(id).None? then (NotFound(SC.NotFound), db)
      else AddEncounterOutcome(db, row)
  }

  /** Once the id matches, the data is valid and the encounter exists, an
      update is exactly an add of the same body. */
  lemma UpdateIsAddWhenFound(db: Table<EncounterRecord>, id: int, row: EncounterRecord)
    requires row.id == Some(id) && row.Validatable() && EncounterConforms(row) && id in db.rows
    ensures UpdateEncounterOutcome(db, id, row) == AddEncounterOutcome(db, row)
  {
  }

  // ---------------------------------------------------------------------------
  // The service object.
  // ---------------------------------------------------------------------------

  class EncounterService {
    const encounterRepository: Repository<EncounterRecord>
    /** The text of the last validation, shared by every call. */
    var errorMessage: string

    ghost predicate Valid()
      reads this, encounterRepository
    {
      encounterRepository.table.Valid()
    }

    constructor (encounterRepository: Repository<EncounterRecord>)
      requires encounterRepository.table.Valid()
      ensures Valid() && errorMessage == "" && this.encounterRepository == encounterRepository
    {
      this.encounterRepository := encounterRepository;
      errorMessage := "";
    }

    /** `queryEncounters`: an empty sample lists every stored encounter; any
        other sample is handed to the store's example matching. */
    method QueryEncounters(encounter: Encounter) returns (r: Listing<EncounterRecord>)
      ensures encounter.Record().IsEmpty() ==> r == Everything(encounterRepository.table.rows)
      ensures !encounter.Record().IsEmpty() ==> r == ByExample(encounter.Record())
    {
      if encounter.Record().IsEmpty() {
        r := Everything(encounterRepository.table.rows);
      } else {
        r := ByExample(encounter.Record());
      }
    }

    /** `queryEncounterByPatientId`. */
    method QueryEncounterByPatientId(patientId: int) returns (r: Response<map<int, EncounterRecord>>)
      ensures r == QueryByPatientIdOutcome(encounterRepository.table, patientId)
      ensures r.Ok? ==> r.value != map[] &&
                        forall k :: k in r.value ==> r.value[k].patientId == Some(patientId)
    {
      var encounters := FindEncountersByPatientId(encounterRepository.table, patientId);
      if encounters != map[] {
        return Ok(encounters);
      }
      return NotFound(SC.NotFound);
    }

    /** `getEncounterById`. */
    method GetEncounterById(id: int) returns (r: Response<EncounterRecord>)
      ensures r == GetEncounterByIdOutcome(encounterRepository.table, id)
      ensures r.Ok? <==> id in encounterRepository.table.rows
      ensures r.Ok? ==> r.value == encounterRepository.table.rows[id]
      ensures !r.Ok? ==> r == NotFound(SC.NotFound)
    {
      var encounter := encounterRepository.table.FindById(id);
      if encounter.Some? {
        return Ok(encounter.value);
      }
      return NotFound(SC.NotFound);
    }

    /** `validateEncounter`: resets `errorMessage`, appends each field's
        message in turn (empty when the field passes), and reports whether
        nothing was appended. */
    method ValidateEncounter(encounter: Encounter) returns (valid: bool)
      requires encounter.Record().Validatable()
      modifies this`errorMessage
      ensures errorMessage == EncounterErrors(encounter.Record())
      ensures valid <==> errorMessage == ""
    {
      EncounterErrorsInOrder(encounter.Record());
      errorMessage := "";
      errorMessage := errorMessage + VisitCodeMessage(encounter.visitCode.value);
      errorMessage := errorMessage + NonEmptyMessage("Provider", encounter.provider.value);
      errorMessage := errorMessage + BillingCodeMessage(encounter.billingCode.value);
      errorMessage := errorMessage + Icd10Message(encounter.icd10.value);
      errorMessage := errorMessage + TotalCostMessage(encounter.totalCost.value);
      errorMessage := errorMessage + NonEmptyMessage("Chief complaint", encounter.chiefComplaint.value);
      errorMessage := errorMessage + DateMessage(encounter.date);
      valid := errorMessage == "";
    }

    /** `addEncounter`. */
    method AddEncounter(encounter: Encounter) returns (r: Response<EncounterRecord>)
      requires Valid() && encounter.Record().Validatable()
      modifies this`errorMessage, encounterRepository
      ensures Valid()
      ensures (r, encounterRepository.table)
              == AddEncounterOutcome(old(encounterRepository.table), encounter.Record())
      ensures errorMessage == EncounterErrors(encounter.Record())
    {
      var valid := ValidateEncounter(encounter);
      if !valid {
        return BadData(errorMessage);
      }
      var saved := SaveEncounterRow(encounterRepository, encounter.Record());
      return Ok(saved);
    }

    /** `updateEncounterById`: the id check comes before validation; a found
        encounter is then written by `addEncounter`, which validates again. */
    method UpdateEncounterById(id: int, encounter: Encounter) returns (r: Response<EncounterRecord>)
      requires Valid() && encounter.id.Some?
      requires encounter.id == Some(id) ==> encounter.Record().Validatable()
      modifies this`errorMessage, encounterRepository
      ensures Valid()
      ensures (r, encounterRepository.table)
              == UpdateEncounterOutcome(old(encounterRepository.table), id, encounter.Record())
      ensures encounter.id != Some(id) ==> errorMessage == old(errorMessage)
      ensures encounter.id == Some(id) ==> errorMessage == EncounterErrors(encounter.Record())
    {
      if encounter.id.value != id {
        return BadData(SC.BadRequestId);
      }
      var valid := ValidateEncounter(encounter);
      if !valid {
        return BadData(errorMessage);
      }
      var existingEncounter := encounterRepository.table.FindById(id);
      if existingEncounter.Some? {
        r := AddEncounter(encounter);
        return;
      }
      return NotFound(SC.NotFound);
    }
  }
}
