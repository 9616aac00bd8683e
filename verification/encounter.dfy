/** The Encounter entity: a mutable object with one setter per field, and the
    value of its fields. Unlike Patient, its numbers are boxed (`Double`,
    `Integer`) and so may be null. */
module Encounters {
  import opened Common

  /** The fields of an Encounter in declaration order. */
  datatype EncounterRecord = EncounterRecord(
    id: Option<int>,
    patientId: Option<int>,
    notes: Option<string>,
    visitCode: Option<string>,
    provider: Option<string>,
    billingCode: Option<string>,
    icd10: Option<string>,
    totalCost: Option<real>,
    copay: Option<real>,
    chiefComplaint: Option<string>,
    pulse: Option<int>,
    systolic: Option<int>,
    diastolic: Option<int>,
    date: Option<Date>)
  {
    /** `isEmpty`: every reference null except the five numbers, which must be
        boxed zeros (0.0 for the costs, 0 for the vitals). */
    predicate IsEmpty()
    {
      && id.None? && patientId.None? && notes.None? && visitCode.None?
      && provider.None? && billingCode.None? && icd10.None?
      && copay == Some(0.0) && totalCost == Some(0.0)
      && chiefComplaint.None?
      && pulse == Some(0) && systolic == Some(0) && diastolic == Some(0)
      && date.None?
    }

    /** `equals` between two distinct objects: every field compared, the id included. */
    predicate Equals(other: EncounterRecord)
    {
      && id == other.id && patientId == other.patientId && notes == other.notes
      && visitCode == other.visitCode && provider == other.provider
      && billingCode == other.billingCode && icd10 == other.icd10
      && totalCost == other.totalCost && copay == other.copay
      && chiefComplaint == other.chiefComplaint && pulse == other.pulse
      && systolic == other.systolic && diastolic == other.diastolic && date == other.date
    }

    /** The fields validation dereferences or unboxes without a null check. */
    predicate Validatable()
    {
      visitCode.Some? && provider.Some? && billingCode.Some? && icd10.Some? &&
      totalCost.Some? && chiefComplaint.Some?
    }
  }

  /** The fields of `new Encounter()`: every field null, the boxed numbers included. */
  const NoArgEncounter: EncounterRecord :=
    EncounterRecord(None, None, None, None, None, None, None, None, None, None, None, None, None, None)

  /** The fields of the 13-argument Encounter built from nulls, 0.0 and 0 (no id). */
  const ZeroSample: EncounterRecord :=
    EncounterRecord(None, None, None, None, None, None, None, Some(0.0), Some(0.0), None,
                    Some(0), Some(0), Some(0), None)

  /** `isEmpty` singles out exactly the zero sample; in particular the
      no-argument Encounter is NOT empty, because its numbers are null. */
  lemma IsEmptyIffZeroSample(r: EncounterRecord)
    ensures r.IsEmpty() <==> r == ZeroSample
    ensures !NoArgEncounter.IsEmpty()
  {
  }

  /** `equals` is equality of all fields, hence reflexive and symmetric. */
  lemma EqualsIsFieldEquality(a: EncounterRecord, b: EncounterRecord)
    ensures a.Equals(b) <==> a == b
    ensures a.Equals(a)
    ensures a.Equals(b) ==> b.Equals(a)
  {
  }

  class Encounter {
    var id: Option<int>
    var patientId: Option<int>
    var notes: Option<string>
    var visitCode: Option<string>
    var provider: Option<string>
    var billingCode: Option<string>
    var icd10: Option<string>
    var totalCost: Option<real>
    var copay: Option<real>
    var chiefComplaint: Option<string>
    var pulse: Option<int>
    var systolic: Option<int>
    var diastolic: Option<int>
    var date: Option<Date>

    /** The current values of the fields. */
    function Record(): EncounterRecord
      reads this
    {
      EncounterRecord(id, patientId, notes, visitCode, provider, billingCode, icd10,
                      totalCost, copay, chiefComplaint, pulse, systolic, diastolic, date)
    }

    /** `new Encounter()`: every field null. */
    constructor Default()
      ensures Record() == NoArgEncounter
      ensures !Record().IsEmpty()
    {
      id, patientId, notes, visitCode, provider := None, None, None, None, None;
      billingCode, icd10, totalCost, copay, chiefComplaint := None, None, None, None, None;
      pulse, systolic, diastolic, date := None, None, None, None;
    }

    /** The 13-argument constructor: sets the given fields, leaves the id null. */
    constructor (patientId: Option<int>, notes: Option<string>, visitCode: Option<string>,
                 provider: Option<string>, billingCode: Option<string>, icd10: Option<string>,
                 totalCost: Option<real>, copay: Option<real>, chiefComplaint: Option<string>,
                 pulse: Option<int>, systolic: Option<int>, diastolic: Option<int>,
                 date: Option<Date>)
      ensures Record() == EncounterRecord(None, patientId, notes, visitCode, provider, billingCode,
                                          icd10, totalCost, copay, chiefComplaint, pulse,
                                          systolic, diastolic, date)
    {
      this.id := None;
      this.patientId, this.notes, this.visitCode, this.provider := patientId, notes, visitCode, provider;
      this.billingCode, this.icd10, this.totalCost, this.copay := billingCode, icd10, totalCost, copay;
      this.chiefComplaint, this.pulse, this.systolic := chiefComplaint, pulse, systolic;
      this.diastolic, this.date := diastolic, date;
    }

    method SetId(id: Option<int>)
      modifies this
      ensures Record() == old(Record()).(id := id)
    {
      this.id := id;
    }

    method SetPatientId(patientId: Option<int>)
      modifies this
      ensures Record() == old(Record()).(patientId := patientId)
    {
      this.patientId := patientId;
    }

    method SetNotes(notes: Option<string>)
      modifies this
      ensures Record() == old(Record()).(notes := notes)
    {
      this.notes := notes;
    }

    method SetVisitCode(visitCode: Option<string>)
      modifies this
      ensures Record() == old(Record()).(visitCode := visitCode)
    {
      this.visitCode := visitCode;
    }

    method SetProvider(provider: Option<string>)
      modifies this
      ensures Record() == old(Record()).(provider := provider)
    {
      this.provider := provider;
    }

    method SetBillingCode(billingCode: Option<string>)
      modifies this
      ensures Record() == old(Record()).(billingCode := billingCode)
    {
      this.billingCode := billingCode;
    }

    method SetIcd10(icd10: Option<string>)
      modifies this
      ensures Record() == old(Record()).(icd10 := icd10)
    {
      this.icd10 := icd10;
    }

    method SetTotalCost(totalCost: Option<real>)
      modifies this
      ensures Record() == old(Record()).(totalCost := totalCost)
    {
      this.totalCost := totalCost;
    }

    method SetCopay(copay: Option<real>)
      modifies this
      ensures Record() == old(Record()).(copay := copay)
    {
      this.copay := copay;
    }

    method SetChiefComplaint(chiefComplaint: Option<string>)
      modifies this
      ensures Record() == old(Record()).(chiefComplaint := chiefComplaint)
    {
      this.chiefComplaint := chiefComplaint;
    }

    method SetPulse(pulse: Option<int>)
      modifies this
      ensures Record() == old(Record()).(pulse := pulse)
    {
      this.pulse := pulse;
    }

    method SetSystolic(systolic: Option<int>)
      modifies this
      ensures Record() == old(Record()).(systolic := systolic)
    {
      this.systolic := systolic;
    }

    method SetDiastolic(diastolic: Option<int>)
      modifies this
      ensures Record() == old(Record()).(diastolic := diastolic)
    {
      this.diastolic := diastolic;
    }

    method SetDate(date: Option<Date>)
      modifies this
      ensures Record() == old(Record()).(date := date)
    {
      this.date := date;
    }

    /** `equals`: the same object, or another Encounter with equal fields. */
    predicate Equals(o: Encounter)
      reads this, o
    {
      this == o || Record().Equals(o.Record())
    }
  }
}
