/** The students page of the academic front end, where a student's checklist opens in a
    modal: whether it is open, the valuation it shows and edits, and the open subject. */
module ChecklistModal {
  import opened Wrappers
  import opened Records
  import opened WebTypes
  import opened SavePayload
  import DetailView
  import WebStore

  /** The list request the page sends on mount: the students of the signed-in user's
      school, and nothing while the session has no school. */
  function SchoolListFetch(sessionSchoolId: Option<string>): (r: Option<GetUsersQuery>)
    ensures r.Some? <==> Present(sessionSchoolId)
    ensures r.Some? ==> r.value == GetUsersQuery(None, Some("Estudiante"), sessionSchoolId)
  {
    if Present(sessionSchoolId) then Some(GetUsersQuery(None, Some("Estudiante"), sessionSchoolId)) else None
  }

  /** The request names the school itself, so a store that fills in the session's school
      when none is given sends it unchanged, and both front ends then ask for the students
      of the same school. */
  lemma SchoolListFetchNeedsNoFillIn(sessionSchoolId: Option<string>, storeSessionSchoolId: Option<string>)
    requires Present(sessionSchoolId)
    ensures WebStore.FinalQuery(SchoolListFetch(sessionSchoolId).value, storeSessionSchoolId) == SchoolListFetch(sessionSchoolId).value
    ensures WebStore.FinalQuery(GetUsersQuery(None, Some("Estudiante"), None), sessionSchoolId) == SchoolListFetch(sessionSchoolId).value
  {
  }

  /** `data.valuationsBySubject?.[0]?.subjectId ?? null`: the first subject's id, kept even
      when it is the empty placeholder, or none without subjects. */
  function FirstSubjectId(d: ValuationDto): (r: Option<Id>)
    ensures r.None? <==> |d.subjects| == 0
    ensures r.Some? ==> r.value == d.subjects[0].subjectId
  {
    if |d.subjects| > 0 then Some(d.subjects[0].subjectId) else None
  }

  /** The two front ends differ on a first subject whose name was deleted (its id is the
      empty placeholder): the modal opens it, the detail view opens nothing. */
  lemma PlaceholderFirstSubjectOpensOnlyInModal(d: ValuationDto)
    requires |d.subjects| > 0 && d.subjects[0].subjectId == ""
    ensures FirstSubjectId(d) == Some("")
    ensures DetailView.DefaultOpenSubject(Some(d), None) == None
  {
  }

  /** Both agree whenever the first subject has a real id and nothing is open yet. */
  lemma FrontEndsAgreeOnRealFirstSubject(d: ValuationDto)
    requires |d.subjects| > 0 && d.subjects[0].subjectId != ""
    ensures FirstSubjectId(d) == DetailView.DefaultOpenSubject(Some(d), None)
  {
  }

  class ChecklistModalPage {
    var modalOpen: bool
    var valuationDto: Option<ValuationDto>
    var openSubjectId: Option<Id>

    /** An open modal always has a valuation to show. */
    ghost predicate Valid()
      reads this
    {
      modalOpen ==> valuationDto.Some?
    }

    constructor()
      ensures Valid()
      ensures !modalOpen && valuationDto == None && openSubjectId == None
    {
      modalOpen := false;
      valuationDto := None;
      openSubjectId := None;
    }

    /** A student's row was clicked. Without an active period nothing is requested and
        nothing changes; otherwise the valuation is initialized or fetched and, if that
        succeeds, shown with its first subject open. A failed request changes nothing. */
    method OpenChecklist(studentId: Id, activePeriodId: Option<Id>, response: Result<ValuationDto, ApiError>)
      returns (path: Option<string>)
      requires Valid()
      modifies this
      ensures Valid()
      ensures activePeriodId.None? ==> path.None?
      ensures activePeriodId.Some? ==> path == Some("/student-valuations/student/" + studentId + "/period/" + activePeriodId.value)
      ensures activePeriodId.Some? && response.Ok? ==>
                modalOpen && valuationDto == Some(response.value) && openSubjectId == FirstSubjectId(response.value)
      ensures activePeriodId.None? || response.Err? ==>
                modalOpen == old(modalOpen) && valuationDto == old(valuationDto) && openSubjectId == old(openSubjectId)
    {
      if activePeriodId.None? {
        return None;
      }
      path := Some("/student-valuations/student/" + studentId + "/period/" + activePeriodId.value);
      if response.Ok? {
        valuationDto := Some(response.value);
        modalOpen := true;
        openSubjectId := FirstSubjectId(response.value);
      }
    }

    method Close()
      modifies this
      ensures Valid()
      ensures !modalOpen && valuationDto == None && openSubjectId == None
    {
      modalOpen := false;
      valuationDto := None;
      openSubjectId := None;
    }

    method Toggle(subjectId: Id)
      modifies this
      ensures openSubjectId == DetailView.ToggleOf(old(openSubjectId), subjectId)
      ensures modalOpen == old(modalOpen) && valuationDto == old(valuationDto)
    {
      openSubjectId := if openSubjectId == Some(subjectId) then None else Some(subjectId);
    }

    /** A checklist of `subjectId` reported a choice for `learningId`. */
    method OnChange(subjectId: Id, learningId: Id, mark: Option<Mark>)
      requires Valid()
      modifies this
      ensures Valid()
      ensures old(valuationDto).None? ==> valuationDto.None?
      ensures old(valuationDto).Some? ==>
                valuationDto == Some(old(valuationDto).value.(subjects := SetMark(old(valuationDto).value.subjects, subjectId, learningId, mark)))
      ensures modalOpen == old(modalOpen) && openSubjectId == old(openSubjectId)
    {
      if valuationDto.Some? {
        var prev := valuationDto.value;
        valuationDto := Some(prev.(subjects := SetMark(prev.subjects, subjectId, learningId, mark)));
      }
    }

    /** The form was submitted. Without a valuation nothing happens. Otherwise the payload
        of its marked learnings is built, but the page's store defines no update action:
        the call to it fails before any request leaves, the failure is caught, and the
        modal stays open with the edits it holds. Nothing on the page changes (the method
        modifies nothing) and no request is sent. */
    method Save() returns (built: Option<UpdatePayload>, request: Option<(Id, UpdatePayload)>)
      ensures built.None? <==> valuationDto.None?
      ensures built.Some? ==> built.value == BuildPayload(valuationDto.value.subjects)
      ensures request.None?
    {
      if valuationDto.None? {
        return None, None;
      }
      built := Some(BuildPayload(valuationDto.value.subjects));
      request := None;
    }
  }
}
