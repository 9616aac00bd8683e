/** The message texts the services put in their responses. */
module StringConstants {

  const NotFound: string := "Not Found"
  const RequiredField: string := " is a required field "
  const EmailConflict: string := "The email address is already associated with another customer "
  const BadRequestId: string := "The id of the request body's entity must match the id of the path parameter "
  const BadRequestFirstName: string := "Invalid first name "
  const BadRequestLastName: string := "Invalid last name "
  const BadRequestEmail: string := "Invalid email address "
  const BadRequestState: string := "Invalid state "
  const BadRequestStateCode: string := "State must be two character state code "
  const BadRequestSsn: string := "Social Security Number must be in format XXX-XX-XXXX "
  const BadRequestZipCode: string := "The zip code must have the format XXXXX or XXXXX-XXXX "
  const BadRequestGender: string := "Gender must be 'Male', 'Female', or 'Other' "

  /** Written inline in the patient service's delete operation. */
  const UnableToDeletePatient: string := "Unable to delete patient "

  /** Written inline in the encounter validator. */
  const InvalidVisitCode: string := "Invalid visit code "
  const InvalidBillingCode: string := "Invalid billing code "
  const InvalidIcd10: string := "Invalid icd10 "

  /** The message for an empty or missing required field, e.g. "Email is a required field ". */
  function Required(field: string): string
  {
    field + RequiredField
  }
}
