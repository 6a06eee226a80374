/** The shapes the teachers' and the academic front ends exchange with the API: a user row
    with its valuation summaries, the query of the users endpoint, and a failed request. */
module WebTypes {
  import opened Wrappers
  import opened Records

  /** One valuation of a user as the users endpoint summarises it; the status is whatever
      string the API sent, possibly none. */
  datatype SummaryDto = SummaryDto(id: Id, periodId: Id, status: Option<string>)

  datatype UserDto = UserDto(
    id: Id,
    role: string,
    firstName: string,
    middleName: Option<string>,
    lastName: string,
    secondLastName: Option<string>,
    identificationType: string,
    identificationNumber: int,
    schoolId: Id,
    valuations: seq<SummaryDto>)

  /** The query parameters of the users endpoint; an absent field is not sent. */
  datatype GetUsersQuery = GetUsersQuery(id: Option<string>, role: Option<string>, schoolId: Option<string>)

  /** A rejected request: the message of the API's error body, if any, and the message of
      the error object itself, if any. */
  datatype ApiError = ApiError(responseMessage: Option<string>, message: Option<string>)
}
