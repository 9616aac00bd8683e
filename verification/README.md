# Clinic records service core, in Dafny

A model of the service layer of a small clinic-records backend. Patients and
their encounters (visits) are kept in two stores keyed by a generated id. The
two services validate what a client sends, field by field, and then read or
write the store. The model covers:

- **The entities** `Patient` and `Encounter` (module `Patients`, module
  `Encounters`). Each is a class whose fields are changed in place by setters.
  A field-value datatype (`PatientRecord`, `EncounterRecord`) is the value the
  store keeps and the value that `isEmpty` and `equals` inspect. A nullable
  Java reference is an `Option`.
- **The stores** (module `Repositories`). A `Repository` object holds a
  `Table`: a map from id to row plus the next value of the identity column.
  `save` writes a row under its own id, or under a fresh id when it has none.
  It is modelled together with `findById`, `deleteById`, `existsByEmail` and
  `findEncountersByPatientId`.
- **The services** (modules `PatientServices` and `EncounterServices`).
  - Each operation of a service class is a method. Every add, get, update,
    delete and list-by-patient method is proved equal to a pure *outcome*
    function of the store it reads. What the operation promises is stated on
    that function and proved in lemmas. The two query methods and the two
    validate methods state their results directly.
  - Validation appends one message per checked field to the service's
    `errorMessage`. The result is `PatientErrors` / `EncounterErrors`. That
    text is proved empty exactly when every field rule holds. Every failing
    field is proved to leave its message in the text.
  - An exception the service throws is a `Response` value: `BadData`
    (BadDataResponse), `NotFound` (ResourceNotFound) or `Conflict`
    (UniqueFieldViolation), each with the exception's message.
- **The regular expressions** (module `Patterns`). The fixed-length patterns
  are character-class shapes. The email pattern is a scanning matcher that is
  proved to accept exactly the strings the expression describes.

## Model

| member | source | states |
|---|---|---|
| Common.AccumulatedEmptyIff | src/main/java/edu/mtc/training/domains/patients/PatientServiceImpl.java:171-247 | the text built by `errorMessage +=` is empty exactly when every appended message is empty |
| Common.AccumulatedHasEach | src/main/java/edu/mtc/training/domains/patients/PatientServiceImpl.java:171-247 | every appended message occurs in the accumulated text: a later append never removes an earlier one |
| Common.AccumulatedOfOne | src/main/java/edu/mtc/training/domains/patients/PatientServiceImpl.java:171-247 | when only one appended message is non-empty, the accumulated text is exactly that message |
| Patients.PatientRecord.IsEmpty | src/main/java/edu/mtc/training/domains/patients/Patient.java:255-270 | `isEmpty`: the id and every string field are null and age, height and weight are 0 |
| Patients.PatientRecord.Equals | src/main/java/edu/mtc/training/domains/patients/Patient.java:215-224 | `equals` between two distinct patients compares all fourteen fields, the id included |
| Patients.IsEmptyIffNoArg | src/main/java/edu/mtc/training/domains/patients/Patient.java:255-270 | `isEmpty` holds exactly for the field values of `new Patient()`: every reference null, age, height and weight 0 |
| Patients.SettingAStringFieldMakesNonEmpty | src/main/java/edu/mtc/training/domains/patients/Patient.java:255-270 | setting any string field of a patient to a non-null value makes `isEmpty` false |
| Patients.EqualsIsFieldEquality | src/main/java/edu/mtc/training/domains/patients/Patient.java:208-225 | `equals` between two patients holds exactly when all fourteen fields are equal, the id included; it is reflexive and symmetric |
| Patients.Patient.Default | src/main/java/edu/mtc/training/domains/patients/Patient.java:74-75 | the no-argument constructor gives every reference null and every number 0, and the result is empty |
| Patients.Patient.constructor | src/main/java/edu/mtc/training/domains/patients/Patient.java:77-92 | the 13-argument constructor stores each argument in its field and leaves the id null |
| Patients.Patient.SetId | src/main/java/edu/mtc/training/domains/patients/Patient.java:99-101 | changes the id and no other field |
| Patients.Patient.SetFirstName | src/main/java/edu/mtc/training/domains/patients/Patient.java:107-109 | changes the first name and no other field |
| Patients.Patient.SetLastName | src/main/java/edu/mtc/training/domains/patients/Patient.java:115-117 | changes the last name and no other field |
| Patients.Patient.SetSsn | src/main/java/edu/mtc/training/domains/patients/Patient.java:123-125 | changes the SSN and no other field |
| Patients.Patient.SetEmail | src/main/java/edu/mtc/training/domains/patients/Patient.java:131-133 | changes the email and no other field |
| Patients.Patient.SetStreet | src/main/java/edu/mtc/training/domains/patients/Patient.java:139-141 | changes the street and no other field |
| Patients.Patient.SetCity | src/main/java/edu/mtc/training/domains/patients/Patient.java:147-149 | changes the city and no other field |
| Patients.Patient.SetState | src/main/java/edu/mtc/training/domains/patients/Patient.java:155-157 | changes the state and no other field |
| Patients.Patient.SetPostal | src/main/java/edu/mtc/training/domains/patients/Patient.java:163-165 | changes the postal code and no other field |
| Patients.Patient.SetAge | src/main/java/edu/mtc/training/domains/patients/Patient.java:171-173 | changes the age and no other field |
| Patients.Patient.SetHeight | src/main/java/edu/mtc/training/domains/patients/Patient.java:179-181 | changes the height and no other field |
| Patients.Patient.SetWeight | src/main/java/edu/mtc/training/domains/patients/Patient.java:187-189 | changes the weight and no other field |
| Patients.Patient.SetInsurance | src/main/java/edu/mtc/training/domains/patients/Patient.java:195-197 | changes the insurance and no other field |
| Patients.Patient.SetGender | src/main/java/edu/mtc/training/domains/patients/Patient.java:203-205 | changes the gender and no other field |
| Patients.Patient.Equals | src/main/java/edu/mtc/training/domains/patients/Patient.java:208-225 | `equals` on patient objects: the same object, or another patient whose fields are all equal |
| Encounters.EncounterRecord.IsEmpty | src/main/java/edu/mtc/training/domains/encounters/Encounter.java:248-264 | `isEmpty`: every reference null, except the two costs, which must be 0.0, and the three vitals, which must be 0 |
| Encounters.EncounterRecord.Equals | src/main/java/edu/mtc/training/domains/encounters/Encounter.java:206-217 | `equals` between two distinct encounters compares all fourteen fields, the id included |
| Encounters.IsEmptyIffZeroSample | src/main/java/edu/mtc/training/domains/encounters/Encounter.java:248-264 | `isEmpty` holds exactly for nulls with boxed zeros in the two costs and three vitals; `new Encounter()` is not empty, because its numbers are null |
| Encounters.EqualsIsFieldEquality | src/main/java/edu/mtc/training/domains/encounters/Encounter.java:199-219 | `equals` between two encounters holds exactly when all fourteen fields are equal; it is reflexive and symmetric |
| Encounters.Encounter.Default | src/main/java/edu/mtc/training/domains/encounters/Encounter.java:65-66 | the no-argument constructor leaves every field null, and the result is not empty |
| Encounters.Encounter.constructor | src/main/java/edu/mtc/training/domains/encounters/Encounter.java:68-84 | the 13-argument constructor stores each argument in its field and leaves the id null |
| Encounters.Encounter.SetId | src/main/java/edu/mtc/training/domains/encounters/Encounter.java:90-92 | changes the id and no other field |
| Encounters.Encounter.SetPatientId | src/main/java/edu/mtc/training/domains/encounters/Encounter.java:98-100 | changes the patient id and no other field |
| Encounters.Encounter.SetNotes | src/main/java/edu/mtc/training/domains/encounters/Encounter.java:106-108 | changes the notes and no other field |
| Encounters.Encounter.SetVisitCode | src/main/java/edu/mtc/training/domains/encounters/Encounter.java:114-116 | changes the visit code and no other field |
| Encounters.Encounter.SetProvider | src/main/java/edu/mtc/training/domains/encounters/Encounter.java:122-124 | changes the provider and no other field |
| Encounters.Encounter.SetBillingCode | src/main/java/edu/mtc/training/domains/encounters/Encounter.java:130-132 | changes the billing code and no other field |
| Encounters.Encounter.SetIcd10 | src/main/java/edu/mtc/training/domains/encounters/Encounter.java:138-140 | changes the ICD-10 code and no other field |
| Encounters.Encounter.SetTotalCost | src/main/java/edu/mtc/training/domains/encounters/Encounter.java:146-148 | changes the total cost and no other field |
| Encounters.Encounter.SetCopay | src/main/java/edu/mtc/training/domains/encounters/Encounter.java:154-156 | changes the copay and no other field |
| Encounters.Encounter.SetChiefComplaint | src/main/java/edu/mtc/training/domains/encounters/Encounter.java:162-164 | changes the chief complaint and no other field |
| Encounters.Encounter.SetPulse | src/main/java/edu/mtc/training/domains/encounters/Encounter.java:170-172 | changes the pulse and no other field |
| Encounters.Encounter.SetSystolic | src/main/java/edu/mtc/training/domains/encounters/Encounter.java:178-180 | changes the systolic pressure and no other field |
| Encounters.Encounter.SetDiastolic | src/main/java/edu/mtc/training/domains/encounters/Encounter.java:186-188 | changes the diastolic pressure and no other field |
| Encounters.Encounter.SetDate | src/main/java/edu/mtc/training/domains/encounters/Encounter.java:194-196 | changes the date and no other field |
| Encounters.Encounter.Equals | src/main/java/edu/mtc/training/domains/encounters/Encounter.java:199-219 | `equals` on encounter objects: the same object, or another encounter whose fields are all equal |
| Patterns.EmailPattern | src/main/java/edu/mtc/training/domains/patients/PatientServiceImpl.java:220 | the email regular expression as a matcher: the alphanumeric text before the first '@', then letters up to the first '.' after it, then letters, each part non-empty |
| Patterns.IndexOf | src/main/java/edu/mtc/training/domains/patients/PatientServiceImpl.java:220 | returns the position of the first occurrence of a character, or the length when there is none |
| Patterns.EmailPatternIsShape | src/main/java/edu/mtc/training/domains/patients/PatientServiceImpl.java:220 | the email matcher accepts a string exactly when it is an alphanumeric run, '@', a run of letters, '.', and a run of letters, each run non-empty |
| Patterns.BillingCodeSeparators | src/main/java/edu/mtc/training/domains/encounters/EncounterServiceImpl.java:167 | the two unescaped dots of the billing-code pattern accept any character but a line terminator, so "123x456y789-10" passes and a newline in place of a dot fails; the '-' is literal, so "123.456.789.10" fails |
| Patterns.Icd10Examples | src/main/java/edu/mtc/training/domains/encounters/EncounterServiceImpl.java:173 | an ICD-10 code is one letter followed by two digits: "A12" passes, "AZ45" and "1A2" fail |
| Patterns.VisitCodeExamples | src/main/java/edu/mtc/training/domains/encounters/EncounterServiceImpl.java:157 | a visit code is letter, digit, letter, space, digit, letter, digit: "A1B 2C3" passes, "A1B2C3" and "visitCode" fail |
| Repositories.Table.FindById | src/main/java/edu/mtc/training/domains/patients/PatientServiceImpl.java:97 | `findById` finds a row exactly when the id is stored, and returns that row |
| Repositories.Table.IdFor | src/main/java/edu/mtc/training/domains/patients/PatientServiceImpl.java:76 | `save` keeps a row's own id; a row without an id gets one that no stored row uses |
| Repositories.Table.Put | src/main/java/edu/mtc/training/domains/patients/PatientServiceImpl.java:154 | a write replaces or adds the row at its key and keeps the identity column ahead of every stored id |
| Repositories.Table.Delete | src/main/java/edu/mtc/training/domains/patients/PatientServiceImpl.java:262 | `deleteById` removes exactly that id and leaves every other row as it was |
| Repositories.SavePatient | src/main/java/edu/mtc/training/domains/patients/PatientServiceImpl.java:76 | `save` keeps a row's own id, or gives a row without one an id no stored row uses; the returned row is the input with that id filled in; the table afterwards is the old one with that row written at that id, and the identity column stays ahead of every stored id |
| Repositories.SaveEncounter | src/main/java/edu/mtc/training/domains/encounters/EncounterServiceImpl.java:108 | the same as `SavePatient`, for encounters |
| Repositories.FindEncountersByPatientId | src/main/java/edu/mtc/training/domains/encounters/EncounterRepository.java:13 | returns exactly the stored encounters whose patient id is the given one, unchanged |
| Repositories.FoundIffReferenced | src/main/java/edu/mtc/training/domains/encounters/EncounterRepository.java:13 | the lookup is non-empty exactly when some stored encounter refers to the patient |
| Repositories.ExistsByEmail | src/main/java/edu/mtc/training/domains/patients/PatientRepository.java:12 | `existsByEmail`: some stored patient has exactly this email |
| Repositories.Repository.constructor | src/main/java/edu/mtc/training/domains/patients/PatientRepository.java:9-10 | a new store is empty, with its identity column at 1 |
| Repositories.Repository.Put | src/main/java/edu/mtc/training/domains/patients/PatientServiceImpl.java:154 | the store's table becomes the old table with the row written at the key |
| Repositories.Repository.DeleteById | src/main/java/edu/mtc/training/domains/patients/PatientServiceImpl.java:262 | the store's table becomes the old table without that id |
| Repositories.SavePatientRow | src/main/java/edu/mtc/training/domains/patients/PatientServiceImpl.java:76 | `save` on the patient store changes the table and returns the saved row as `SavePatient` says |
| Repositories.SaveEncounterRow | src/main/java/edu/mtc/training/domains/encounters/EncounterServiceImpl.java:108 | `save` on the encounter store changes the table and returns the saved row as `SaveEncounter` says |
| PatientServices.PatientMessages | src/main/java/edu/mtc/training/domains/patients/PatientServiceImpl.java:174-245 | validation checks thirteen fields, one message each, in source order |
| PatientServices.NameMessage | src/main/java/edu/mtc/training/domains/patients/PatientServiceImpl.java:174-184 | an empty first or last name gives "First Name is a required field " / "Last Name is a required field "; a non-empty name not matching `^[a-zA-Z'-]+$` gives the invalid-name text; the message is empty exactly when the name matches |
| PatientServices.SsnMessage | src/main/java/edu/mtc/training/domains/patients/PatientServiceImpl.java:186-190 | an empty SSN gives its required text; a non-empty SSN not of the form XXX-XX-XXXX in digits gives the SSN-format text; the message is empty exactly when the SSN has that form |
| PatientServices.PresenceMessage | src/main/java/edu/mtc/training/domains/patients/PatientServiceImpl.java:192-198 | a street, city or insurance equal to "" gives its required text; the message is empty exactly when the field is not the empty string, so null passes |
| PatientServices.StateMessage | src/main/java/edu/mtc/training/domains/patients/PatientServiceImpl.java:200-209 | an empty state gives its required text; else a state that is not two letters gives the state-code text; else a two-letter code outside the valid set gives "Invalid state "; the message is empty exactly when the state is two letters and a valid code |
| PatientServices.PostalMessage | src/main/java/edu/mtc/training/domains/patients/PatientServiceImpl.java:211-216 | an empty zip gives its required text; a non-empty zip that is neither five digits nor five digits, '-' and four digits gives the zip-format text; the message is empty exactly when it has one of those forms |
| PatientServices.EmailMessage | src/main/java/edu/mtc/training/domains/patients/PatientServiceImpl.java:218-222 | an empty email gives its required text; a non-empty email not matching its regular expression gives "Invalid email address "; the message is empty exactly when it matches |
| PatientServices.PositiveMessage | src/main/java/edu/mtc/training/domains/patients/PatientServiceImpl.java:224-234 | an age, height or weight not above 0 gives its required text; the message is empty exactly when the number is above 0 |
| PatientServices.GenderMessage | src/main/java/edu/mtc/training/domains/patients/PatientServiceImpl.java:240-245 | an empty gender gives its required text; any other value but "Male", "Female" or "Other" gives the gender text; the message is empty exactly for those three |
| PatientServices.NameToStateMessagesEmptyIff | src/main/java/edu/mtc/training/domains/patients/PatientServiceImpl.java:174-209 | each of the name, SSN, street, city and state messages is empty exactly when that field's rule holds; a null street or city passes; a state passes only when it is two letters and in the valid set |
| PatientServices.PostalToGenderMessagesEmptyIff | src/main/java/edu/mtc/training/domains/patients/PatientServiceImpl.java:211-245 | each of the zip, email, age, height, weight, insurance and gender messages is empty exactly when that field's rule holds; a null insurance passes |
| PatientServices.PatientMessagesEmptyIff | src/main/java/edu/mtc/training/domains/patients/PatientServiceImpl.java:174-245 | all thirteen messages are empty exactly when the patient meets every field rule |
| PatientServices.PatientErrors | src/main/java/edu/mtc/training/domains/patients/PatientServiceImpl.java:171-247 | the validation text is empty (the patient is valid) exactly when every field rule holds |
| PatientServices.PatientErrorsInOrder | src/main/java/edu/mtc/training/domains/patients/PatientServiceImpl.java:171-247 | the validation text is the thirteen field messages appended in the order the fields are checked |
| PatientServices.EveryFailingFieldReported | src/main/java/edu/mtc/training/domains/patients/PatientServiceImpl.java:171-247 | validation does not stop at the first failure: every field's message appears in the text |
| PatientServices.NameToStateAtMostOneMessage | src/main/java/edu/mtc/training/domains/patients/PatientServiceImpl.java:174-209 | each of the first six fields adds nothing, its "is a required field" text, or its own invalid text; never two messages |
| PatientServices.PostalToGenderAtMostOneMessage | src/main/java/edu/mtc/training/domains/patients/PatientServiceImpl.java:211-245 | each of the last seven fields adds nothing, its "is a required field" text, or its own invalid text; never two messages |
| PatientServices.IdNotChecked | src/main/java/edu/mtc/training/domains/patients/PatientServiceImpl.java:171-247 | the id plays no part in validation |
| PatientServices.OnlyStateOutsideSetFails | src/test/java/edu/mtc/training/domains/patients/PatientServiceImplTest.java:157-161 | a valid patient moved to a two-letter code outside the valid set (such as "ZX") fails with "Invalid state " and nothing else |
| PatientServices.ZarefIsValid | src/test/java/edu/mtc/training/domains/patients/PatientServiceImplTest.java:43-56 | the test patient passes validation wherever "AZ" is a valid state |
| PatientServices.AddPatientOutcome | src/main/java/edu/mtc/training/domains/patients/PatientServiceImpl.java:63-85 | invalid data gives BadData with the validation text; a valid patient whose email is taken gives Conflict with the email message; otherwise the patient is written at its own id when it has one, or at an id no stored row uses, and returned with that id; on success the table is the old one with just that row written; failures leave the store as it was |
| PatientServices.PutFreshEmailKeepsUnique | src/main/java/edu/mtc/training/domains/patients/Patient.java:39 | writing a row whose email no stored row has keeps the stored emails unique |
| PatientServices.AddKeepsEmailsUnique | src/main/java/edu/mtc/training/domains/patients/PatientServiceImpl.java:63-85 | adding a patient keeps every stored email unique |
| PatientServices.AddSameEmailTwiceConflicts | src/main/java/edu/mtc/training/domains/patients/PatientServiceImpl.java:72-84 | after one add succeeds, a second valid add with the same email gives Conflict and leaves the store unchanged |
| PatientServices.GetPatientByIdOutcome | src/main/java/edu/mtc/training/domains/patients/PatientServiceImpl.java:94-106 | gives the stored patient exactly when the id is stored, and NotFound otherwise |
| PatientServices.UpdatePatientOutcome | src/main/java/edu/mtc/training/domains/patients/PatientServiceImpl.java:116-168 | checks in this order: a body id different from the path id gives BadData with the id message; then invalid data gives BadData with the validation text; then an unknown id gives NotFound with "Not Found"; then a changed email already in use gives Conflict with the email message; otherwise the row is replaced and no id is added or removed |
| PatientServices.UpdateKeepsEmailsUnique | src/main/java/edu/mtc/training/domains/patients/PatientServiceImpl.java:143-155 | updating keeps every stored email unique, whether the email is kept or changed |
| PatientServices.DeletePatientOutcome | src/main/java/edu/mtc/training/domains/patients/PatientServiceImpl.java:256-274 | an unknown id gives NotFound; a patient with encounters gives Conflict; otherwise exactly that patient is removed; no other row changes |
| PatientServices.DeleteKeepsReferences | src/main/java/edu/mtc/training/domains/patients/PatientServiceImpl.java:259-266 | if every encounter's patient id names a stored patient, this still holds after a delete |
| PatientServices.DeleteConflictsIffEncountersListed | src/main/java/edu/mtc/training/domains/patients/PatientServiceImpl.java:260-266 | for a stored patient, deleting conflicts exactly when listing the patient's encounters succeeds |
| PatientServices.PatientService.constructor | src/main/java/edu/mtc/training/domains/patients/PatientServiceImpl.java:25-32 | the service keeps the two stores it is given and starts with an empty error message |
| PatientServices.PatientService.QueryPatients | src/main/java/edu/mtc/training/domains/patients/PatientServiceImpl.java:42-54 | an empty sample asks for every stored patient; any other sample asks for example matching |
| PatientServices.PatientService.GetPatientById | src/main/java/edu/mtc/training/domains/patients/PatientServiceImpl.java:94-106 | the response is `GetPatientByIdOutcome` of the store: the stored patient exactly when the id is stored, and NotFound otherwise |
| PatientServices.PatientService.ValidatePatient | src/main/java/edu/mtc/training/domains/patients/PatientServiceImpl.java:171-248 | leaves `PatientErrors` in `errorMessage` and reports valid exactly when it is empty |
| PatientServices.PatientService.AddPatient | src/main/java/edu/mtc/training/domains/patients/PatientServiceImpl.java:63-85 | response and new store are `AddPatientOutcome` of the old store; unique emails are preserved |
| PatientServices.PatientService.UpdatePatient | src/main/java/edu/mtc/training/domains/patients/PatientServiceImpl.java:116-168 | response and new store are `UpdatePatientOutcome` of the old store; an id mismatch leaves `errorMessage` untouched; unique emails are preserved |
| PatientServices.PatientService.DeletePatient | src/main/java/edu/mtc/training/domains/patients/PatientServiceImpl.java:256-274 | response and new store are `DeletePatientOutcome` of the old stores |
| EncounterServices.EncounterMessages | src/main/java/edu/mtc/training/domains/encounters/EncounterServiceImpl.java:155-187 | validation checks seven fields, one message each, in source order |
| EncounterServices.VisitCodeMessage | src/main/java/edu/mtc/training/domains/encounters/EncounterServiceImpl.java:155-159 | an empty visit code gives "Visit code is a required field "; a non-empty code not matching its pattern gives "Invalid visit code "; the message is empty exactly when it matches |
| EncounterServices.NonEmptyMessage | src/main/java/edu/mtc/training/domains/encounters/EncounterServiceImpl.java:161-163 | an empty provider or chief complaint gives its required text; the message is empty exactly when the text is not empty |
| EncounterServices.BillingCodeMessage | src/main/java/edu/mtc/training/domains/encounters/EncounterServiceImpl.java:165-169 | an empty billing code gives its required text; a non-empty code not matching its pattern gives "Invalid billing code "; the message is empty exactly when it matches |
| EncounterServices.Icd10Message | src/main/java/edu/mtc/training/domains/encounters/EncounterServiceImpl.java:171-175 | an empty ICD-10 code gives its required text; a non-empty code not matching its pattern gives "Invalid icd10 "; the message is empty exactly when it matches |
| EncounterServices.TotalCostMessage | src/main/java/edu/mtc/training/domains/encounters/EncounterServiceImpl.java:177-179 | a total cost not above 0.0 gives "Total cost is a required field "; the message is empty exactly when the cost is above 0.0 |
| EncounterServices.DateMessage | src/main/java/edu/mtc/training/domains/encounters/EncounterServiceImpl.java:185-187 | a missing date gives "Date is a required field "; the message is empty exactly when a date is present |
| EncounterServices.EncounterMessagesEmptyIff | src/main/java/edu/mtc/training/domains/encounters/EncounterServiceImpl.java:155-187 | each message is empty exactly when its rule holds: visit, billing and ICD-10 patterns, non-empty provider and complaint, total cost above 0.0, a date present |
| EncounterServices.EncounterErrors | src/main/java/edu/mtc/training/domains/encounters/EncounterServiceImpl.java:152-190 | the validation text is empty (the encounter is valid) exactly when every field rule holds |
| EncounterServices.EncounterErrorsInOrder | src/main/java/edu/mtc/training/domains/encounters/EncounterServiceImpl.java:152-190 | the validation text is the seven field messages appended in the order the fields are checked |
| EncounterServices.EveryFailingFieldReported | src/main/java/edu/mtc/training/domains/encounters/EncounterServiceImpl.java:152-190 | validation does not stop at the first failure: every field's message appears in the text |
| EncounterServices.UncheckedFieldsIgnored | src/main/java/edu/mtc/training/domains/encounters/EncounterServiceImpl.java:152-190 | notes, copay, pulse, systolic, diastolic and the two ids play no part in validation |
| EncounterServices.NonPositiveCostFails | src/main/java/edu/mtc/training/domains/encounters/EncounterServiceImpl.java:177-179 | a total cost of 0.0 or less always puts "Total cost is a required field " in the text |
| EncounterServices.SampleEncounterValidation | src/test/java/edu/mtc/training/domains/encounters/EncounterServiceImplTest.java:38-114 | the test encounter `encounter1` (built at lines 101-114) passes validation; the bad-data fixture `encounter2` (lines 39-52, written out field by field as `BadDataEncounter`) has its visit code, billing code, ICD-10 code, total cost and date all reported |
| EncounterServices.AddEncounterOutcome | src/main/java/edu/mtc/training/domains/encounters/EncounterServiceImpl.java:101-112 | invalid data gives BadData with the validation text and leaves the store as it was; valid data is written at the encounter's own id when it has one, or at an id no stored row uses, and returned with that id; on success the table is the old one with just that row written |
| EncounterServices.GetEncounterByIdOutcome | src/main/java/edu/mtc/training/domains/encounters/EncounterServiceImpl.java:80-91 | gives the stored encounter exactly when the id is stored, and NotFound otherwise |
| EncounterServices.QueryByPatientIdOutcome | src/main/java/edu/mtc/training/domains/encounters/EncounterServiceImpl.java:59-70 | gives exactly the patient's encounters when there is at least one, and NotFound when there are none |
| EncounterServices.UpdateEncounterOutcome | src/main/java/edu/mtc/training/domains/encounters/EncounterServiceImpl.java:123-150 | checks in this order: an id mismatch gives BadData with the id message; then invalid data gives BadData with the validation text; then an unknown id gives NotFound with "Not Found"; otherwise the row at the id is replaced and no id is added or removed; it never conflicts |
| EncounterServices.UpdateIsAddWhenFound | src/main/java/edu/mtc/training/domains/encounters/EncounterServiceImpl.java:145-146 | once the id matches, the data is valid and the encounter exists, an update is exactly `addEncounter` of the same body |
| EncounterServices.EncounterService.constructor | src/main/java/edu/mtc/training/domains/encounters/EncounterServiceImpl.java:19-26 | the service keeps the store it is given and starts with an empty error message |
| EncounterServices.EncounterService.QueryEncounters | src/main/java/edu/mtc/training/domains/encounters/EncounterServiceImpl.java:36-49 | an empty sample asks for every stored encounter; any other sample asks for example matching |
| EncounterServices.EncounterService.QueryEncounterByPatientId | src/main/java/edu/mtc/training/domains/encounters/EncounterServiceImpl.java:59-70 | the response is `QueryByPatientIdOutcome`; a success is non-empty and holds only the patient's encounters |
| EncounterServices.EncounterService.GetEncounterById | src/main/java/edu/mtc/training/domains/encounters/EncounterServiceImpl.java:80-91 | the response is `GetEncounterByIdOutcome` of the store: the stored encounter exactly when the id is stored, and NotFound otherwise |
| EncounterServices.EncounterService.ValidateEncounter | src/main/java/edu/mtc/training/domains/encounters/EncounterServiceImpl.java:152-190 | leaves `EncounterErrors` in `errorMessage` and reports valid exactly when it is empty |
| EncounterServices.EncounterService.AddEncounter | src/main/java/edu/mtc/training/domains/encounters/EncounterServiceImpl.java:101-112 | response and new store are `AddEncounterOutcome` of the old store |
| EncounterServices.EncounterService.UpdateEncounterById | src/main/java/edu/mtc/training/domains/encounters/EncounterServiceImpl.java:123-150 | response and new store are `UpdateEncounterOutcome` of the old store; a found encounter is written through `AddEncounter`, which validates again |

## Left out

- HTTP controllers, exception handlers and the data loader sit outside the service core and are not modelled.
- `ServiceUnavailable`, the wrapper for a store failure, is not modelled: the store never fails here.
- Example matching (`findAll(Example.of(...))`) belongs to the persistence framework. `QueryPatients` and `QueryEncounters` return `ByExample(sample)` for a non-empty sample and leave the matching unmodelled.
- `ValidStates` (the list of valid state codes) is not part of this model. `PatientService` takes the set of valid codes as a constructor argument.
- Bean-validation annotations (`@Valid`, column constraints other than the unique email) are framework behaviour and are not modelled.
- Null fields that validation dereferences raise a NullPointerException in the source. The model does not give that path a result; it requires those fields to be present (`Validatable`), and for updates it requires a non-null body id.
- `Double` fields are `real`. NaN and -0.0 are not modelled.
- `java.util.Date` is an opaque instant (`Date(millis)`). Only its presence and its equality are used.
- A list returned by a store is a map from id to row. List order is not modelled.
- The database's generated ids are a counter in `Table.nextId`. A `save` of a row whose id is not stored inserts at that id. The source's JPA store would not do that: it would treat the row as new and give it a freshly generated id.
- The unique email column (Patient.java:39) is kept as the invariant `EmailsUnique` of the patient store. The model does not raise a database error for a duplicate; the services' checks are proved to keep the invariant. `EmailsUnique` also requires every stored email to be non-null, which a unique column alone would not. That half rests on the `@NotBlank` constraint on the email (Patient.java:37). It is what keeps `updatePatient` from dereferencing a null stored email (PatientServiceImpl.java:149).
- `errorMessage` is one field shared by every call of a service. Concurrent calls that race on it are not modelled.
- `PatientService.ValidatePatient` and `EncounterService.ValidateEncounter` append one per-field message function per field. Each field's if / else-if chain is inside that function, not written as statements in the method.
- `hashCode` and `toString` are not modelled.
- `Patient.Equals` and `Encounter.Equals` take a non-null object of the same class. `equals(null)` and `equals` with an object of another class return false in the source; that case is not modelled.
- `updateEncounterById` with a null body id throws a NullPointerException before any check; the model requires a body id, as it does for `updatePatient`.
