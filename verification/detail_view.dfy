/** The valuation detail view of the teachers' front end: a local copy of the store's
    current valuation that the checklists edit, the subject whose checklist is open, and
    the save and delete requests it sends. */
module DetailView {
  import opened Wrappers
  import opened Records
  import opened SavePayload

  /** The open subject after the view takes a new valuation from the store: the first
      subject, when it has a non-empty id and no subject with a non-empty id is open;
      otherwise whatever was open. */
  function DefaultOpenSubject(current: Option<ValuationDto>, open: Option<Id>): (r: Option<Id>)
    ensures Present(open) ==> r == open
    ensures !Present(open) && current.Some? && |current.value.subjects| > 0 && current.value.subjects[0].subjectId != "" ==>
              r == Some(current.value.subjects[0].subjectId)
    ensures r != open ==>
              && !Present(open) && current.Some? && |current.value.subjects| > 0
              && current.value.subjects[0].subjectId != "" && r == Some(current.value.subjects[0].subjectId)
  {
    if !Present(open) && current.Some? && |current.value.subjects| > 0 && current.value.subjects[0].subjectId != "" then
      Some(current.value.subjects[0].subjectId)
    else open
  }

  /** Taking the same valuation twice opens nothing new the second time. */
  lemma DefaultOpenSubjectIdempotent(current: Option<ValuationDto>, open: Option<Id>)
    ensures DefaultOpenSubject(current, DefaultOpenSubject(current, open)) == DefaultOpenSubject(current, open)
  {
  }

  /** The header of a checklist was clicked: it closes if it was the open one, and opens
      (closing the other) if not. */
  function ToggleOf(open: Option<Id>, subjectId: Id): (r: Option<Id>)
    ensures r == Some(subjectId) <==> open != Some(subjectId)
    ensures r.None? <==> open == Some(subjectId)
  {
    if open == Some(subjectId) then None else Some(subjectId)
  }

  /** Clicking the same header twice restores the state unless another subject was open. */
  lemma ToggleTwice(open: Option<Id>, subjectId: Id)
    ensures open.None? || open == Some(subjectId) ==> ToggleOf(ToggleOf(open, subjectId), subjectId) == open
    ensures open.Some? && open != Some(subjectId) ==> ToggleOf(ToggleOf(open, subjectId), subjectId).None?
  {
  }

  class ValuationDetail {
    var localValuation: Option<ValuationDto>
    var openSubjectId: Option<Id>

    constructor(current: Option<ValuationDto>)
      ensures localValuation == current && openSubjectId == None
    {
      localValuation := current;
      openSubjectId := None;
    }

    /** The effect run when the store's current valuation changes. */
    method SyncFromStore(current: Option<ValuationDto>)
      modifies this
      ensures localValuation == current
      ensures openSubjectId == DefaultOpenSubject(current, old(openSubjectId))
    {
      localValuation := current;
      if current.Some? && |current.value.subjects| > 0 && current.value.subjects[0].subjectId != "" && !Present(openSubjectId) {
        openSubjectId := Some(current.value.subjects[0].subjectId);
      }
    }

    method Toggle(subjectId: Id)
      modifies this
      ensures openSubjectId == ToggleOf(old(openSubjectId), subjectId)
      ensures localValuation == old(localValuation)
    {
      openSubjectId := if openSubjectId == Some(subjectId) then None else Some(subjectId);
    }

    /** A checklist of `subjectId` reported a choice for `learningId`. */
    method OnChange(subjectId: Id, learningId: Id, mark: Option<Mark>)
      modifies this
      ensures old(localValuation).None? ==> localValuation.None?
      ensures old(localValuation).Some? ==>
                localValuation == Some(old(localValuation).value.(subjects := SetMark(old(localValuation).value.subjects, subjectId, learningId, mark)))
      ensures openSubjectId == old(openSubjectId)
    {
      if localValuation.Some? {
        var prev := localValuation.value;
        localValuation := Some(prev.(subjects := SetMark(prev.subjects, subjectId, learningId, mark)));
      }
    }

    /** The update request a save sends: none when no valuation is loaded, otherwise the
        valuation's id with the payload of its marked learnings. */
    method Save() returns (request: Option<(Id, UpdatePayload)>)
      ensures request.None? <==> localValuation.None?
      ensures request.Some? ==> request.value == (localValuation.value.id, BuildPayload(localValuation.value.subjects))
    {
      if localValuation.None? {
        return None;
      }
      request := Some((localValuation.value.id, BuildPayload(localValuation.value.subjects)));
    }

    /** The id a confirmed delete passes to the store: the loaded valuation's own id. */
    method ConfirmDelete() returns (valuationId: Option<Id>)
      ensures valuationId.None? <==> localValuation.None?
      ensures valuationId.Some? ==> valuationId.value == localValuation.value.id
    {
      if localValuation.None? {
        return None;
      }
      valuationId := Some(localValuation.value.id);
    }
  }
}
