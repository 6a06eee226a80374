/** The teachers' front-end store of student valuations: the student list and its current
    page, the valuation being edited, a loading flag and the last error. Each action that
    talks to the API takes the API's answer as a parameter. */
module WebStore {
  import opened Wrappers
  import opened Records
  import opened Seqs
  import opened WebTypes
  import opened Pagination

  /** The message an action reports for a failed request: the API's message, else the
      error's own message, else the action's fallback text (a `||` chain, so an empty
      message falls through). */
  function ErrorMessage(e: ApiError, fallback: string): (r: string)
    ensures Present(e.responseMessage) ==> r == e.responseMessage.value
    ensures !Present(e.responseMessage) && Present(e.message) ==> r == e.message.value
    ensures !Present(e.responseMessage) && !Present(e.message) ==> r == fallback
    ensures fallback != "" ==> r != ""
  {
    if Present(e.responseMessage) then e.responseMessage.value
    else if Present(e.message) then e.message.value
    else fallback
  }

  /** The query `fetchUsers` sends: the caller's, with the signed-in user's school filled in
      only when the caller gave none. */
  function FinalQuery(query: GetUsersQuery, sessionSchoolId: Option<string>): (r: GetUsersQuery)
    ensures r.id == query.id && r.role == query.role
    ensures Present(query.schoolId) ==> r == query
    ensures !Present(query.schoolId) && Present(sessionSchoolId) ==> r.schoolId == sessionSchoolId
    ensures !Present(query.schoolId) && !Present(sessionSchoolId) ==> r == query
  {
    if !Present(query.schoolId) && Present(sessionSchoolId) then query.(schoolId := sessionSchoolId)
    else query
  }

  /** The page `nextPage` moves to. */
  function NextPageOf(page: int, count: nat): int {
    if page < TotalPages(count) then page + 1 else page
  }

  /** The page `prevPage` moves to. */
  function PrevPageOf(page: int): int {
    if page > 1 then page - 1 else page
  }

  /** Paging forward never leaves the range of pages it starts in, and never goes below
      page 1; paging back never goes below page 1 either. */
  lemma PagingStaysInRange(page: int, count: nat)
    requires page >= 1
    ensures 1 <= NextPageOf(page, count) && 1 <= PrevPageOf(page)
    ensures page <= TotalPages(count) ==> NextPageOf(page, count) <= TotalPages(count)
    ensures NextPageOf(page, count) == page <==> page >= TotalPages(count)
    ensures PrevPageOf(page) == page <==> page == 1
  {
  }

  /** Forward then back returns to the same page, and so does back then forward. */
  lemma PagingIsReversible(page: int, count: nat)
    requires page >= 1
    ensures page < TotalPages(count) ==> PrevPageOf(NextPageOf(page, count)) == page
    ensures 1 < page <= TotalPages(count) ==> NextPageOf(PrevPageOf(page), count) == page
  {
  }

  /** The list after a successful delete: every user whose id differs from the given id. */
  function WithoutId(users: seq<UserDto>, id: Id): (r: seq<UserDto>)
    ensures forall u :: u in r <==> u in users && u.id != id
    ensures IsSubsequence(r, users)
  {
    FilterIsSubsequence(users, IdOtherThan(id));
    Filter(users, IdOtherThan(id))
  }

  function IdOtherThan(id: Id): UserDto -> bool {
    (u: UserDto) => u.id != id
  }

  /** The list is keyed by student id, but the id the detail view deletes by is a
      valuation's: unless some user shares that id, a successful delete leaves the list
      as it was. */
  lemma DeleteByValuationIdKeepsList(users: seq<UserDto>, valuationId: Id)
    requires forall k :: 0 <= k < |users| ==> users[k].id != valuationId
    ensures WithoutId(users, valuationId) == users
  {
    FilterKeepsAll(users, IdOtherThan(valuationId));
  }

  /** The store holds the valuation with this id. */
  predicate IsCurrent(current: Option<ValuationDto>, valuationId: Id) {
    current.Some? && current.value.id == valuationId
  }

  class StudentValuationStore {
    var users: seq<UserDto>
    var currentValuation: Option<ValuationDto>
    var isLoading: bool
    var error: Option<string>
    var currentPage: int

    /** Pages are counted from 1. */
    ghost predicate Valid()
      reads this
    {
      currentPage >= 1
    }

    constructor()
      ensures Valid()
      ensures users == [] && currentValuation == None && !isLoading && error == None && currentPage == 1
    {
      users := [];
      currentValuation := None;
      isLoading := false;
      error := None;
      currentPage := 1;
    }

    /** Loads a list of users; returns the query it sent and, on failure, the message it
        throws. The page goes back to 1 whatever the answer. */
    method FetchUsers(query: GetUsersQuery, sessionSchoolId: Option<string>, response: Result<seq<UserDto>, ApiError>)
      returns (sent: GetUsersQuery, thrown: Option<string>)
      modifies this
      ensures Valid() && currentPage == 1 && !isLoading
      ensures sent == FinalQuery(query, sessionSchoolId)
      ensures currentValuation == old(currentValuation)
      ensures response.Ok? ==> users == response.value && error == None && thrown == None
      ensures response.Err? ==> (users == old(users) && thrown == error
                                 && error == Some(ErrorMessage(response.error, "Falló la carga de usuarios.")))
    {
      isLoading, error, currentPage := true, None, 1;
      sent := FinalQuery(query, sessionSchoolId);
      match response
      case Ok(data) =>
        users, isLoading := data, false;
        thrown := None;
      case Err(e) =>
        var message := ErrorMessage(e, "Falló la carga de usuarios.");
        error, isLoading := Some(message), false;
        thrown := Some(message);
    }

    /** Initializes or fetches a student's valuation for a period. The old valuation is
        dropped before the request; a failure leaves none, records the error and throws
        nothing. Returns the path it posts to. */
    method FetchValuation(studentId: Id, periodId: Id, response: Result<ValuationDto, ApiError>)
      returns (path: string)
      modifies this
      ensures path == "/student-valuations/student/" + studentId + "/period/" + periodId
      ensures !isLoading && users == old(users) && currentPage == old(currentPage)
      ensures response.Ok? ==> currentValuation == Some(response.value) && error == None
      ensures response.Err? ==> (currentValuation == None
                                 && error == Some(ErrorMessage(response.error, "Error al cargar la valoración.")))
    {
      isLoading, error, currentValuation := true, None, None;
      path := "/student-valuations/student/" + studentId + "/period/" + periodId;
      match response
      case Ok(data) =>
        currentValuation, isLoading := Some(data), false;
      case Err(e) =>
        error, isLoading := Some(ErrorMessage(e, "Error al cargar la valoración.")), false;
    }

    method ClearValuation()
      modifies this
      ensures currentValuation == None && error == None
      ensures users == old(users) && isLoading == old(isLoading) && currentPage == old(currentPage)
    {
      currentValuation, error := None, None;
    }

    /** Sends a payload for a valuation. On success the store's current valuation is
        replaced only if it is the one that was updated; the updated DTO is returned. On
        failure the error is recorded and its message is thrown. */
    method UpdateValuation(valuationId: Id, payload: UpdatePayload, response: Result<ValuationDto, ApiError>)
      returns (result: Result<ValuationDto, string>)
      modifies this
      ensures !isLoading && users == old(users) && currentPage == old(currentPage)
      ensures response.Ok? ==> result == Ok(response.value) && error == None
      ensures response.Ok? && IsCurrent(old(currentValuation), valuationId) ==> currentValuation == Some(response.value)
      ensures response.Ok? && !IsCurrent(old(currentValuation), valuationId) ==> currentValuation == old(currentValuation)
      ensures response.Err? ==> (currentValuation == old(currentValuation) && error.Some? && result == Err(error.value)
                                 && error == Some(ErrorMessage(response.error, "Falló la actualización.")))
    {
      isLoading, error := true, None;
      match response
      case Ok(data) =>
        if IsCurrent(currentValuation, valuationId) {
          currentValuation := Some(data);
        }
        isLoading := false;
        result := Ok(data);
      case Err(e) =>
        var message := ErrorMessage(e, "Falló la actualización.");
        error, isLoading := Some(message), false;
        result := Err(message);
    }

    /** Deletes a valuation. On success the users whose id equals the given id leave the
        list; on failure nothing changes and the message is thrown. */
    method DeleteValuation(valuationId: Id, response: Outcome<ApiError>)
      returns (thrown: Option<string>)
      modifies this
      ensures currentValuation == old(currentValuation) && error == old(error)
      ensures isLoading == old(isLoading) && currentPage == old(currentPage)
      ensures response.Pass? ==> users == WithoutId(old(users), valuationId) && thrown == None
      ensures response.Fail? ==> (users == old(users)
                                  && thrown == Some(ErrorMessage(response.error, "Error al eliminar la Lista de Chequeo.")))
    {
      match response
      case Pass =>
        users := WithoutId(users, valuationId);
        thrown := None;
      case Fail(e) =>
        thrown := Some(ErrorMessage(e, "Error al eliminar la Lista de Chequeo."));
    }

    /** Moves forward one page while there is a next page. */
    method NextPage()
      requires Valid()
      modifies this
      ensures Valid()
      ensures currentPage == NextPageOf(old(currentPage), |users|)
      ensures users == old(users) && currentValuation == old(currentValuation)
      ensures isLoading == old(isLoading) && error == old(error)
    {
      var totalPages := TotalPages(|users|);
      if currentPage < totalPages {
        currentPage := currentPage + 1;
      }
    }

    /** Moves back one page unless on the first. */
    method PrevPage()
      requires Valid()
      modifies this
      ensures Valid()
      ensures currentPage == PrevPageOf(old(currentPage))
      ensures users == old(users) && currentValuation == old(currentValuation)
      ensures isLoading == old(isLoading) && error == old(error)
    {
      if currentPage > 1 {
        currentPage := currentPage - 1;
      }
    }
  }
}
