/** The students table of the teachers' front end: the state shown for each student, how
    the name columns are put together, and when the paging buttons are enabled. */
module ValuationTable {
  import opened Wrappers
  import Records
  import opened WebTypes
  import opened UiState
  import opened Pagination
  import opened WebStore
  import opened Seqs

  /** The state shown for a status string: no status, an empty one or one the table does not
      know all show as not started. */
  function GetValuationState(status: Option<string>): (r: ValuationState)
    ensures !Present(status) ==> r == NotStarted
    ensures Present(status) && ApiStatusToState(status.value).None? ==> r == NotStarted
    ensures Present(status) && ApiStatusToState(status.value).Some? ==> r == ApiStatusToState(status.value).value
    ensures r == NotStarted <==> !Present(status) || Records.ParseStatus(status.value).None?
  {
    if !Present(status) then NotStarted
    else match ApiStatusToState(status.value)
      case Some(state) => state
      case None => NotStarted
  }

  /** Every status a stored valuation can have is shown as its own state. */
  lemma StoredStatusShown(g: Records.GlobalStatus)
    ensures GetValuationState(Some(Records.StatusLabel(g))) == StateOf(g)
    ensures GetValuationState(Some(Records.StatusLabel(g))) != NotStarted
  {
    ApiStatusMatchesServiceLabels(Records.StatusLabel(g));
  }

  /** The status of the first valuation summary, if there is one. */
  function FirstStatus(u: UserDto): Option<string> {
    if |u.valuations| > 0 then u.valuations[0].status else None
  }

  /** The state shown for a student. */
  function DisplayedState(u: UserDto): ValuationState {
    GetValuationState(FirstStatus(u))
  }

  /** Only the first summary decides the state: a student without summaries is not
      started, and two students whose first summaries agree show the same state, whatever
      their other summaries say. */
  lemma StateFromFirstSummaryOnly(u: UserDto, w: UserDto)
    ensures |u.valuations| == 0 ==> DisplayedState(u) == NotStarted
    ensures |u.valuations| > 0 && |w.valuations| > 0 && u.valuations[0].status == w.valuations[0].status ==>
              DisplayedState(u) == DisplayedState(w)
  {
  }

  // ---------------------------------------------------------------------------
  // Name columns: `[a, b].filter(Boolean).join(" ")`
  // ---------------------------------------------------------------------------

  function IsTruthy(): Option<string> -> bool {
    (p: Option<string>) => Present(p)
  }

  /** The parts that are present and non-empty, in order: the values of exactly the parts
      that `filter(Boolean)` keeps. */
  function TruthyParts(parts: seq<Option<string>>): (r: seq<string>)
    ensures |r| == |Filter(parts, IsTruthy())|
    ensures forall k :: 0 <= k < |r| ==> Some(r[k]) == Filter(parts, IsTruthy())[k]
    ensures |r| <= |parts|
    ensures forall k :: 0 <= k < |r| ==> r[k] != ""
    ensures forall k :: 0 <= k < |parts| && Present(parts[k]) ==> parts[k].value in r
  {
    if |parts| == 0 then []
    else
      var last := parts[|parts| - 1];
      TruthyParts(parts[..|parts| - 1]) + (if Present(last) then [last.value] else [])
  }

  /** `words.join(sep)`. */
  function Join(words: seq<string>, sep: string): string {
    if |words| == 0 then ""
    else if |words| == 1 then words[0]
    else Join(words[..|words| - 1], sep) + sep + words[|words| - 1]
  }

  /** A name column: a required part followed by an optional one. */
  function NameColumn(first: string, second: Option<string>): string {
    Join(TruthyParts([Some(first), second]), " ")
  }

  /** The column shows exactly the non-empty parts, separated by one space: no leading,
      trailing or doubled space comes from a missing part. */
  lemma NameColumnCases(first: string, second: Option<string>)
    ensures first != "" && Present(second) ==> NameColumn(first, second) == first + " " + second.value
    ensures first != "" && !Present(second) ==> NameColumn(first, second) == first
    ensures first == "" && Present(second) ==> NameColumn(first, second) == second.value
    ensures first == "" && !Present(second) ==> NameColumn(first, second) == ""
  {
    var parts := [Some(first), second];
    assert parts[..1] == [Some(first)];
    assert [Some(first)][..0] == [];
    var head := if first != "" then [first] else [];
    assert TruthyParts([Some(first)]) == head;
    var words := head + (if Present(second) then [second.value] else []);
    assert TruthyParts(parts) == words;
    if |words| == 2 {
      assert words[..1] == [first];
      assert Join(words[..1], " ") == first;
      assert words[1] == second.value;
    }
  }

  /** The "Nombres" and "Apellidos" columns of a row. */
  function FullFirstName(u: UserDto): string {
    NameColumn(u.firstName, u.middleName)
  }

  function FullLastName(u: UserDto): string {
    NameColumn(u.lastName, u.secondLastName)
  }

  // ---------------------------------------------------------------------------
  // Paging buttons
  // ---------------------------------------------------------------------------

  predicate PrevDisabled(currentPage: int) {
    currentPage == 1
  }

  predicate NextDisabled(currentPage: int, totalPages: nat) {
    currentPage == totalPages
  }

  /** On a valid page the Previous button is enabled exactly when it moves the page, and
      within the range of pages so is the Next button. */
  lemma ButtonsEnabledIffTheyMove(currentPage: int, count: nat)
    requires currentPage >= 1
    ensures !PrevDisabled(currentPage) <==> PrevPageOf(currentPage) != currentPage
    ensures currentPage <= TotalPages(count) ==>
              (!NextDisabled(currentPage, TotalPages(count)) <==> NextPageOf(currentPage, count) != currentPage)
  {
  }

  /** With no students there are no pages, so page 1 is not the last page: Next stays
      enabled, and pressing it changes nothing. */
  lemma NextEnabledButInertOnEmptyList()
    ensures !NextDisabled(1, TotalPages(0))
    ensures NextPageOf(1, 0) == 1
  {
  }
}
