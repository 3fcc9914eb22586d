/** The records that flow between the stages of an issuance run. */
module Types {
  import opened Wrappers

  /** One roster row after extraction; `email` is derived, never read from the file. */
  datatype BlackboardStudent = BlackboardStudent(
    lastName: string,
    firstName: string,
    username: string,
    studentId: string,
    email: string)

  /**
   * The run parameters. The spending limit is a real number; the floating-point
   * special values (NaN, infinities) are not part of this model.
   */
  datatype ProcessOptions = ProcessOptions(
    provisioningKey: Option<string>,
    limit: real,
    courseCode: string,
    section: string,
    term: string,
    date: Option<string>,
    output: Option<string>,
    emailDomain: Option<string>)

  /** One issued key, with the identity of the student it was issued for. */
  datatype KeyRecord = KeyRecord(
    name: string,
    key: string,
    hash: string,
    username: string,
    studentId: string,
    email: string)
}
