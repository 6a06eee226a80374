/** The checklist of one subject in both front ends: the marks chosen locally, the mark
    each learning shows, and the subject's progress (valued count, state and percentage). */
module Checklist {
  import opened Wrappers
  import opened Records
  import opened Seqs
  import opened UiState
  import ValuationUpdate
  import ValuationService

  /** The mark a learning shows: the local selection unless it is absent or null, in which
      case the mark the server sent (`selections[id] ?? serverMark`). */
  function Effective(selections: map<Id, Option<Mark>>, l: LearningDto): (r: Option<Mark>)
    ensures l.learningId in selections && selections[l.learningId].Some? ==> r == selections[l.learningId]
    ensures !(l.learningId in selections && selections[l.learningId].Some?) ==> r == l.mark
    ensures r.None? <==> (l.learningId !in selections || selections[l.learningId].None?) && l.mark.None?
  {
    if l.learningId in selections && selections[l.learningId].Some? then selections[l.learningId] else l.mark
  }

  /** The component's local selections. They are reset from the parent's initial
      selections whenever those change. */
  class ChecklistSelections {
    var selections: map<Id, Option<Mark>>

    constructor(initial: map<Id, Option<Mark>>)
      ensures selections == initial
    {
      selections := initial;
    }

    method Reset(initial: map<Id, Option<Mark>>)
      modifies this
      ensures selections == initial
    {
      selections := initial;
    }

    /** Records a choice for one learning and reports the same pair to the parent. */
    method HandleSelect(id: Id, val: Option<Mark>) returns (reported: (Id, Option<Mark>))
      modifies this
      ensures selections == old(selections)[id := val]
      ensures reported == (id, val)
    {
      selections := selections[id := val];
      reported := (id, val);
    }
  }

  /** A choice changes only what its own learning shows: every other learning shows what it
      showed before, its own shows the choice, and a null choice falls back to the server
      mark. */
  lemma SelectTouchesOnlyItsLearning(selections: map<Id, Option<Mark>>, id: Id, val: Option<Mark>, l: LearningDto)
    ensures l.learningId != id ==> Effective(selections[id := val], l) == Effective(selections, l)
    ensures l.learningId == id && val.Some? ==> Effective(selections[id := val], l) == val
    ensures l.learningId == id && val.None? ==> Effective(selections[id := val], l) == l.mark
  {
  }

  /** `subject?.learningValuations || []`: no subject, no learnings. */
  function LearningsOf(subject: Option<SubjectDto>): seq<LearningDto> {
    match subject
    case Some(s) => s.learnings
    case None => []
  }

  function IsValued(selections: map<Id, Option<Mark>>): LearningDto -> bool {
    (l: LearningDto) => Effective(selections, l).Some?
  }

  /** How many learnings show a mark. */
  function ValuedCount(selections: map<Id, Option<Mark>>, ls: seq<LearningDto>): (r: nat)
    ensures r <= |ls|
  {
    |Filter(ls, IsValued(selections))|
  }

  /** The classifier: nothing valued, everything valued, or in between. */
  function SubjectStatus(valued: nat, total: nat): ValuationState {
    if valued == 0 then ValuationState.NotStarted
    else if valued == total then ValuationState.Completed
    else ValuationState.InProgress
  }

  function ChecklistStatus(selections: map<Id, Option<Mark>>, ls: seq<LearningDto>): ValuationState {
    SubjectStatus(ValuedCount(selections, ls), |ls|)
  }

  /** The subject is not started iff no learning shows a mark (so an empty subject is not
      started), completed iff it has learnings and all show a mark, and in progress iff some
      do and some do not. It is never shown as created. */
  lemma {:induction false} ChecklistStatusMeaning(selections: map<Id, Option<Mark>>, ls: seq<LearningDto>)
    ensures ChecklistStatus(selections, ls) == ValuationState.NotStarted <==>
              forall k :: 0 <= k < |ls| ==> Effective(selections, ls[k]).None?
    ensures ChecklistStatus(selections, ls) == ValuationState.Completed <==>
              |ls| > 0 && forall k :: 0 <= k < |ls| ==> Effective(selections, ls[k]).Some?
    ensures ChecklistStatus(selections, ls) == ValuationState.InProgress <==>
              (exists k :: 0 <= k < |ls| && Effective(selections, ls[k]).Some?) &&
              (exists k :: 0 <= k < |ls| && Effective(selections, ls[k]).None?)
    ensures ChecklistStatus(selections, ls) != ValuationState.Created
  {
    var p := IsValued(selections);
    var valued := Filter(ls, p);
    if forall k :: 0 <= k < |ls| ==> Effective(selections, ls[k]).None? {
      FilterKeepsNone(ls, p);
    } else {
      var k :| 0 <= k < |ls| && Effective(selections, ls[k]).Some?;
      assert ls[k] in valued;
    }
    if forall k :: 0 <= k < |ls| ==> Effective(selections, ls[k]).Some? {
      FilterKeepsAll(ls, p);
    } else {
      var k :| 0 <= k < |ls| && Effective(selections, ls[k]).None?;
      FilterDropsRejected(ls, p, k);
    }
  }

  /** `valued / total * 100`, or 0 for a subject without learnings. */
  function CompletionPercentage(valued: nat, total: nat): real {
    if total > 0 then (valued as real / total as real) * 100.0 else 0.0
  }

  /** The percentage of `valued` out of `total` lies in [0, 100]: it is 100 exactly when
      every one of at least one learning is valued, and 0 exactly when none is. */
  lemma CompletionPercentageRange(valued: nat, total: nat)
    requires valued <= total
    ensures 0.0 <= CompletionPercentage(valued, total) <= 100.0
    ensures CompletionPercentage(valued, total) == 100.0 <==> total > 0 && valued == total
    ensures CompletionPercentage(valued, total) == 0.0 <==> valued == 0
  {
    if total > 0 {
      var v, n := valued as real, total as real;
      var q := v / n;
      assert q * n == v;
      assert 0.0 <= q <= 1.0;
      if valued == total {
        assert q == 1.0;
      } else {
        assert v < n;
        assert q != 1.0;
      }
      if valued == 0 {
        assert q == 0.0;
      } else {
        assert q != 0.0;
      }
    }
  }

  /** The percentage lies in [0, 100]; it is 100 exactly when the subject is completed and
      0 exactly when it is not started. */
  lemma CompletionMatchesStatus(selections: map<Id, Option<Mark>>, ls: seq<LearningDto>)
    ensures var pct := CompletionPercentage(ValuedCount(selections, ls), |ls|);
      && 0.0 <= pct <= 100.0
      && (pct == 100.0 <==> ChecklistStatus(selections, ls) == ValuationState.Completed)
      && (pct == 0.0 <==> ChecklistStatus(selections, ls) == ValuationState.NotStarted)
  {
    CompletionPercentageRange(ValuedCount(selections, ls), |ls|);
  }

  /** A missing subject shows an empty checklist: not started, at 0%. */
  lemma MissingSubjectNotStarted(selections: map<Id, Option<Mark>>)
    ensures LearningsOf(None) == []
    ensures ChecklistStatus(selections, LearningsOf(None)) == ValuationState.NotStarted
    ensures CompletionPercentage(ValuedCount(selections, LearningsOf(None)), 0) == 0.0
  {
  }

  // ---------------------------------------------------------------------------
  // The initial selections the parent passes: a reduce over the subject's learnings
  // ---------------------------------------------------------------------------

  function Entries(ls: seq<LearningDto>): (r: seq<(Id, Option<Mark>)>)
    ensures |r| == |ls| && forall j :: 0 <= j < |ls| ==> r[j] == (ls[j].learningId, ls[j].mark)
  {
    seq(|ls|, j requires 0 <= j < |ls| => (ls[j].learningId, ls[j].mark))
  }

  function LearningIds(ls: seq<LearningDto>): set<Id> {
    set j | 0 <= j < |ls| :: ls[j].learningId
  }

  /** Each learning id mapped to the server mark of its last learning. */
  function SelectionsFrom(ls: seq<LearningDto>): (r: map<Id, Option<Mark>>)
    ensures r.Keys == LearningIds(ls)
  {
    map id | id in LearningIds(ls) :: Lookup(Entries(ls), id).GetOr(None)
  }

  lemma SelectionsFromStep(ls: seq<LearningDto>, k: nat)
    requires k < |ls|
    ensures SelectionsFrom(ls[..k + 1]) == SelectionsFrom(ls[..k])[ls[k].learningId := ls[k].mark]
  {
    var prefix, next := ls[..k], ls[..k + 1];
    assert Entries(next) == Entries(prefix) + [(ls[k].learningId, ls[k].mark)];
    assert Entries(next)[..k] == Entries(prefix);
    assert LearningIds(next) == LearningIds(prefix) + {ls[k].learningId} by {
      assert forall j :: 0 <= j < k ==> next[j] == prefix[j];
      assert next[k] == ls[k];
    }
  }

  /** Builds the map the parent passes as `initialSelections`, one learning at a time. */
  method InitialSelections(ls: seq<LearningDto>) returns (acc: map<Id, Option<Mark>>)
    ensures acc == SelectionsFrom(ls)
  {
    acc := map[];
    assert ls[..0] == [];
    assert SelectionsFrom(ls[..0]) == map[];
    for k := 0 to |ls|
      invariant acc == SelectionsFrom(ls[..k])
    {
      SelectionsFromStep(ls, k);
      acc := acc[ls[k].learningId := ls[k].mark];
    }
    assert ls[..|ls|] == ls;
  }

  /** With distinct learning ids the initial selections show each learning's own server
      mark, so the checklist opens showing exactly what the server stored. */
  lemma {:induction false} InitialSelectionsShowServerMarks(ls: seq<LearningDto>, k: nat)
    requires k < |ls|
    requires forall i, j :: 0 <= i < j < |ls| ==> ls[i].learningId != ls[j].learningId
    ensures SelectionsFrom(ls)[ls[k].learningId] == ls[k].mark
    ensures Effective(SelectionsFrom(ls), ls[k]) == ls[k].mark
  {
    LookupLast(Entries(ls), k);
  }

  /** Before any local choice, the checklist of a subject as the service populated it
      shows completed exactly when the stored subject has learnings and all are marked. */
  lemma {:induction false} UntouchedChecklistMatchesStored(d: SubjectDto, s: SubjectValuation, dir: ValuationService.Directory)
    requires ValuationService.ShowsSubject(d, s, dir)
    requires forall i, j :: 0 <= i < j < |d.learnings| ==> d.learnings[i].learningId != d.learnings[j].learningId
    ensures ChecklistStatus(SelectionsFrom(d.learnings), d.learnings) == ValuationState.Completed <==>
              |s.learnings| > 0 && ValuationUpdate.FullyValued(s)
  {
    ChecklistStatusMeaning(SelectionsFrom(d.learnings), d.learnings);
    forall j | 0 <= j < |d.learnings|
      ensures Effective(SelectionsFrom(d.learnings), d.learnings[j]) == s.learnings[j].mark
    {
      InitialSelectionsShowServerMarks(d.learnings, j);
      assert ValuationService.ShowsLearning(d.learnings[j], s.learnings[j], dir);
    }
  }

  /** Two learnings under one id share the last one's selection. */
  lemma SharedIdShowsLastMark(ls: seq<LearningDto>)
    requires |ls| == 2 && ls[0].learningId == ls[1].learningId
    requires ls[0].mark.None? && ls[1].mark == Some(Achieved)
    ensures ChecklistStatus(SelectionsFrom(ls), ls) == ValuationState.Completed
  {
    var entries := Entries(ls);
    LookupLast(entries, 1);
    var selections := SelectionsFrom(ls);
    assert ls[1].learningId in LearningIds(ls);
    assert selections[ls[1].learningId] == Some(Achieved);
    var p := IsValued(selections);
    assert p(ls[0]) && p(ls[1]);
    FilterKeepsAll(ls, p);
  }

  /** Without distinct ids the untouched checklist can disagree with the stored subject.
      Population gives every deleted learning the id "", so two deleted learnings share
      one selection, the last one's. When the first is unmarked and the second marked,
      both show the mark and the checklist shows COMPLETED over a stored subject that is
      not fully marked. */
  lemma DeletedLearningsShareOneSelection(d: SubjectDto, s: SubjectValuation, dir: ValuationService.Directory)
    requires ValuationService.ShowsSubject(d, s, dir)
    requires |s.learnings| == 2
    requires s.learnings[0].learningId !in dir.learningDescriptions && s.learnings[1].learningId !in dir.learningDescriptions
    requires s.learnings[0].mark.None? && s.learnings[1].mark == Some(Achieved)
    ensures d.learnings[0].learningId == d.learnings[1].learningId == ""
    ensures ChecklistStatus(SelectionsFrom(d.learnings), d.learnings) == ValuationState.Completed
    ensures !ValuationUpdate.FullyValued(s)
  {
    assert ValuationService.ShowsLearning(d.learnings[0], s.learnings[0], dir);
    assert ValuationService.ShowsLearning(d.learnings[1], s.learnings[1], dir);
    SharedIdShowsLastMark(d.learnings);
    assert !s.learnings[0].mark.Some?;
  }
}
