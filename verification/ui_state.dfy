/** The four display states of a valuation in the teacher's front end, and the table that
    maps the API's status strings onto them. */
module UiState {
  import opened Wrappers
  import Records

  datatype ValuationState = Completed | InProgress | Created | NotStarted

  /** The API status → display state table. A string outside the table has no entry. */
  function ApiStatusToState(s: string): (r: Option<ValuationState>)
    ensures r.Some? <==> Records.ParseStatus(s).Some?
    ensures r != Some(NotStarted)
  {
    if s == "Evaluado" then Some(Completed)
    else if s == "Evaluando" then Some(InProgress)
    else if s == "Por diligenciar" then Some(Created)
    else None
  }

  /** The display state meant for each stored status: the independent reference the
      table is checked against. */
  function StateOf(g: Records.GlobalStatus): (r: ValuationState)
    ensures r != NotStarted
  {
    match g
    case Completed => ValuationState.Completed
    case InProgress => ValuationState.InProgress
    case Created => ValuationState.Created
  }

  /** The table agrees with the service's status labels: each label a stored valuation can
      carry maps to that status's display state, and nothing else maps. */
  lemma ApiStatusMatchesServiceLabels(s: string)
    ensures forall g: Records.GlobalStatus :: ApiStatusToState(Records.StatusLabel(g)) == Some(StateOf(g))
    ensures ApiStatusToState(s).Some? ==> ApiStatusToState(s) == Some(StateOf(Records.ParseStatus(s).value))
  {
    forall g: Records.GlobalStatus ensures ApiStatusToState(Records.StatusLabel(g)) == Some(StateOf(g)) {
      match g
      case Completed =>
      case InProgress =>
      case Created =>
    }
  }

  /** No two API strings map to the same state. */
  lemma ApiStatusMapInjective(s: string, t: string)
    requires ApiStatusToState(s).Some?
    requires ApiStatusToState(s) == ApiStatusToState(t)
    ensures s == t
  {
  }
}
