/** The Patient entity: a mutable object with one setter per field, and the
    value of its fields, which is what the store keeps and what `isEmpty` and
    `equals` inspect. */
module Patients {
  import opened Common

  /** The fields of a Patient in declaration order; string fields may be null. */
  datatype PatientRecord = PatientRecord(
    id: Option<int>,
    firstName: Option<string>,
    lastName: Option<string>,
    ssn: Option<string>,
    email: Option<string>,
    street: Option<string>,
    city: Option<string>,
    state: Option<string>,
    postal: Option<string>,
    age: int,
    height: int,
    weight: int,
    insurance: Option<string>,
    gender: Option<string>)
  {
    /** `isEmpty`: the id and every string field are null and the three
        numbers are 0 -- the sample that asks for every stored patient. */
    predicate IsEmpty()
    {
      && id.None? && firstName.None? && lastName.None? && ssn.None? && email.None?
      && street.None? && city.None? && state.None? && postal.None?
      && age == 0 && height == 0 && weight == 0
      && insurance.None? && gender.None?
    }

    /** `equals` between two distinct objects: every field compared, the id included. */
    predicate Equals(other: PatientRecord)
    {
      && age == other.age && height == other.height && weight == other.weight
      && id == other.id && firstName == other.firstName && lastName == other.lastName
      && ssn == other.ssn && email == other.email && street == other.street
      && city == other.city && state == other.state && postal == other.postal
      && insurance == other.insurance && gender == other.gender
    }

    /** The fields validation dereferences without a null check (it throws
        a NullPointerException on any of them being null). */
    predicate Validatable()
    {
      firstName.Some? && lastName.Some? && ssn.Some? && state.Some? &&
      postal.Some? && email.Some? && gender.Some?
    }
  }

  /** The fields of `new Patient()`: Java's defaults. */
  const NoArgPatient: PatientRecord :=
    PatientRecord(None, None, None, None, None, None, None, None, None, 0, 0, 0, None, None)

  /** A no-argument Patient is empty, and it is the only empty one: `isEmpty`
      singles out exactly the default object. */
  lemma IsEmptyIffNoArg(r: PatientRecord)
    ensures r.IsEmpty() <==> r == NoArgPatient
  {
  }

  /** Setting any string field to a non-null value makes a patient non-empty,
      so a sample with that field set is matched by example. */
  lemma SettingAStringFieldMakesNonEmpty(r: PatientRecord, v: string)
    ensures !r.(firstName := Some(v)).IsEmpty() && !r.(lastName := Some(v)).IsEmpty()
    ensures !r.(ssn := Some(v)).IsEmpty() && !r.(email := Some(v)).IsEmpty()
    ensures !r.(street := Some(v)).IsEmpty() && !r.(city := Some(v)).IsEmpty()
    ensures !r.(state := Some(v)).IsEmpty() && !r.(postal := Some(v)).IsEmpty()
    ensures !r.(insurance := Some(v)).IsEmpty() && !r.(gender := Some(v)).IsEmpty()
  {
  }

  /** `equals` is equality of all fields, hence reflexive and symmetric. */
  lemma EqualsIsFieldEquality(a: PatientRecord, b: PatientRecord)
    ensures a.Equals(b) <==> a == b
    ensures a.Equals(a)
    ensures a.Equals(b) ==> b.Equals(a)
  {
  }

  class Patient {
    var id: Option<int>
    var firstName: Option<string>
    var lastName: Option<string>
    var ssn: Option<string>
    var email: Option<string>
    var street: Option<string>
    var city: Option<string>
    var state: Option<string>
    var postal: Option<string>
    var age: int
    var height: int
    var weight: int
    var insurance: Option<string>
    var gender: Option<string>

    /** The current values of the fields. */
    function Record(): PatientRecord
      reads this
    {
      PatientRecord(id, firstName, lastName, ssn, email, street, city, state, postal,
                    age, height, weight, insurance, gender)
    }

    /** `new Patient()`: every reference null, every number 0. */
    constructor Default()
      ensures Record() == NoArgPatient
      ensures Record().IsEmpty()
    {
      id, firstName, lastName, ssn, email := None, None, None, None, None;
      street, city, state, postal := None, None, None, None;
      age, height, weight := 0, 0, 0;
      insurance, gender := None, None;
    }

    /** The 13-argument constructor: sets the given fields, leaves the id null. */
    constructor (firstName: Option<string>, lastName: Option<string>, ssn: Option<string>,
                 email: Option<string>, street: Option<string>, city: Option<string>,
                 state: Option<string>, postal: Option<string>, age: int, height: int,
                 weight: int, insurance: Option<string>, gender: Option<string>)
      ensures Record() == PatientRecord(None, firstName, lastName, ssn, email, street, city,
                                        state, postal, age, height, weight, insurance, gender)
    {
      this.id := None;
      this.firstName, this.lastName, this.ssn, this.email := firstName, lastName, ssn, email;
      this.street, this.city, this.state, this.postal := street, city, state, postal;
      this.age, this.height, this.weight := age, height, weight;
      this.insurance, this.gender := insurance, gender;
    }

    method SetId(id: Option<int>)
      modifies this
      ensures Record() == old(Record()).(id := id)
    {
      this.id := id;
    }

    method SetFirstName(firstName: Option<string>)
      modifies this
      ensures Record() == old(Record()).(firstName := firstName)
    {
      this.firstName := firstName;
    }

    method SetLastName(lastName: Option<string>)
      modifies this
      ensures Record() == old(Record()).(lastName := lastName)
    {
      this.lastName := lastName;
    }

    method SetSsn(ssn: Option<string>)
      modifies this
      ensures Record() == old(Record()).(ssn := ssn)
    {
      this.ssn := ssn;
    }

    method SetEmail(email: Option<string>)
      modifies this
      ensures Record() == old(Record()).(email := email)
    {
      this.email := email;
    }

    method SetStreet(street: Option<string>)
      modifies this
      ensures Record() == old(Record()).(street := street)
    {
      this.street := street;
    }

    method SetCity(city: Option<string>)
      modifies this
      ensures Record() == old(Record()).(city := city)
    {
      this.city := city;
    }

    method SetState(state: Option<string>)
      modifies this
      ensures Record() == old(Record()).(state := state)
    {
      this.state := state;
    }

    method SetPostal(postal: Option<string>)
      modifies this
      ensures Record() == old(Record()).(postal := postal)
    {
      this.postal := postal;
    }

    method SetAge(age: int)
      modifies this
      ensures Record() == old(Record()).(age := age)
    {
      this.age := age;
    }

    method SetHeight(height: int)
      modifies this
      ensures Record() == old(Record()).(height := height)
    {
      this.height := height;
    }

    method SetWeight(weight: int)
      modifies this
      ensures Record() == old(Record()).(weight := weight)
    {
      this.weight := weight;
    }

    method SetInsurance(insurance: Option<string>)
      modifies this
      ensures Record() == old(Record()).(insurance := insurance)
    {
      this.insurance := insurance;
    }

    method SetGender(gender: Option<string>)
      modifies this
      ensures Record() == old(Record()).(gender := gender)
    {
      this.gender := gender;
    }

    /** `equals`: the same object, or another Patient with equal fields. */
    predicate Equals(o: Patient)
      reads this, o
    {
      this == o || Record().Equals(o.Record())
    }
  }
}
