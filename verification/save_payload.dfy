/** The payload a checklist save builds, and how an edit changes the valuation being
    edited. Both pages build the payload the same way: every subject with only its marked
    learnings, and subjects left with none dropped. The teachers' detail view sends it;
    the academic modal never does (its store has no update action). */
module SavePayload {
  import opened Wrappers
  import opened Records
  import opened Seqs
  import opened ValuationUpdate
  import opened ValuationService

  function IsMarked(): LearningDto -> bool {
    (l: LearningDto) => l.mark.Some?
  }

  function ToUpdate(l: LearningDto): LearningUpdate {
    LearningUpdate(l.learningId, l.mark)
  }

  function ToUpdates(kept: seq<LearningDto>): (r: seq<LearningUpdate>)
    ensures |r| == |kept| && forall k :: 0 <= k < |kept| ==> r[k] == ToUpdate(kept[k])
  {
    seq(|kept|, k requires 0 <= k < |kept| => ToUpdate(kept[k]))
  }

  /** A subject's learnings whose mark is not null, as update entries, in order. */
  function MarkedUpdates(ls: seq<LearningDto>): (r: seq<LearningUpdate>)
    ensures forall k :: 0 <= k < |r| ==> r[k].mark.Some?
    ensures forall j :: 0 <= j < |ls| && ls[j].mark.Some? ==> ToUpdate(ls[j]) in r
    ensures forall k :: 0 <= k < |r| ==> exists j :: 0 <= j < |ls| && ls[j].mark.Some? && r[k] == ToUpdate(ls[j])
    ensures |r| == 0 <==> forall j :: 0 <= j < |ls| ==> ls[j].mark.None?
  {
    MarkedUpdatesFacts(ls);
    ToUpdates(Filter(ls, IsMarked()))
  }

  lemma MarkedUpdatesFacts(ls: seq<LearningDto>)
    ensures var r := ToUpdates(Filter(ls, IsMarked()));
      && (forall j :: 0 <= j < |ls| && ls[j].mark.Some? ==> ToUpdate(ls[j]) in r)
      && (forall k :: 0 <= k < |r| ==> exists j :: 0 <= j < |ls| && ls[j].mark.Some? && r[k] == ToUpdate(ls[j]))
      && (|r| == 0 <==> forall j :: 0 <= j < |ls| ==> ls[j].mark.None?)
  {
    var kept := Filter(ls, IsMarked());
    var r := ToUpdates(kept);
    if forall j :: 0 <= j < |ls| ==> ls[j].mark.None? {
      FilterKeepsNone(ls, IsMarked());
    }
    forall j | 0 <= j < |ls| && ls[j].mark.Some?
      ensures ToUpdate(ls[j]) in r
    {
      var k :| 0 <= k < |kept| && kept[k] == ls[j];
      assert r[k] == ToUpdate(ls[j]);
    }
    forall k | 0 <= k < |r|
      ensures exists j :: 0 <= j < |ls| && ls[j].mark.Some? && r[k] == ToUpdate(ls[j])
    {
      assert kept[k] in ls;
      var j :| 0 <= j < |ls| && ls[j] == kept[k];
      assert r[k] == ToUpdate(ls[j]);
    }
  }

  function Stage(d: SubjectDto): SubjectUpdate {
    SubjectUpdate(d.subjectId, MarkedUpdates(d.learnings))
  }

  /** Every subject of the valuation, each with its marked learnings. */
  function Staged(subjects: seq<SubjectDto>): (r: seq<SubjectUpdate>)
    ensures |r| == |subjects| && forall i :: 0 <= i < |subjects| ==> r[i] == Stage(subjects[i])
  {
    seq(|subjects|, i requires 0 <= i < |subjects| => Stage(subjects[i]))
  }

  function HasUpdates(): SubjectUpdate -> bool {
    (s: SubjectUpdate) => |s.learnings| > 0
  }

  /** The payload of a save. It never sends a null mark and never an empty subject; it keeps
      the subjects' order; and a subject is sent iff at least one of its learnings is
      marked. */
  function BuildPayload(subjects: seq<SubjectDto>): (r: UpdatePayload)
    ensures forall k, j :: 0 <= k < |r| && 0 <= j < |r[k].learnings| ==> r[k].learnings[j].mark.Some?
    ensures forall k :: 0 <= k < |r| ==> |r[k].learnings| > 0 && r[k] in Staged(subjects)
    ensures IsSubsequence(r, Staged(subjects))
    ensures forall i :: 0 <= i < |subjects| ==>
              (Stage(subjects[i]) in r <==> exists j :: 0 <= j < |subjects[i].learnings| && subjects[i].learnings[j].mark.Some?)
  {
    BuildPayloadFacts(subjects);
    Filter(Staged(subjects), HasUpdates())
  }

  lemma BuildPayloadFacts(subjects: seq<SubjectDto>)
    ensures var r := Filter(Staged(subjects), HasUpdates());
      && IsSubsequence(r, Staged(subjects))
      && forall i :: 0 <= i < |subjects| ==>
           (Stage(subjects[i]) in r <==> exists j :: 0 <= j < |subjects[i].learnings| && subjects[i].learnings[j].mark.Some?)
  {
    var staged := Staged(subjects);
    var r := Filter(staged, HasUpdates());
    FilterIsSubsequence(staged, HasUpdates());
    forall i | 0 <= i < |subjects|
      ensures Stage(subjects[i]) in r <==> exists j :: 0 <= j < |subjects[i].learnings| && subjects[i].learnings[j].mark.Some?
    {
      var ls := subjects[i].learnings;
      if exists j :: 0 <= j < |ls| && ls[j].mark.Some? {
        var j :| 0 <= j < |ls| && ls[j].mark.Some?;
        assert ToUpdate(ls[j]) in MarkedUpdates(ls);
        assert HasUpdates()(staged[i]);
      }
    }
  }

  // ---------------------------------------------------------------------------
  // Editing one learning
  // ---------------------------------------------------------------------------

  /** `onChange` for the checklist of `subjectId`: the mark of every learning with
      `learningId` inside every subject with `subjectId` becomes `mark`. */
  function SetMark(subjects: seq<SubjectDto>, subjectId: Id, learningId: Id, mark: Option<Mark>): (r: seq<SubjectDto>)
    ensures |r| == |subjects|
    ensures forall i :: 0 <= i < |subjects| && subjects[i].subjectId != subjectId ==> r[i] == subjects[i]
    ensures forall i :: 0 <= i < |subjects| ==>
              && r[i] == subjects[i].(learnings := r[i].learnings)
              && |r[i].learnings| == |subjects[i].learnings|
    ensures forall i, j :: 0 <= i < |subjects| && 0 <= j < |subjects[i].learnings| ==>
              var l := subjects[i].learnings[j];
              r[i].learnings[j] == if subjects[i].subjectId == subjectId && l.learningId == learningId then l.(mark := mark) else l
  {
    seq(|subjects|, i requires 0 <= i < |subjects| => SetMarkIn(subjects[i], subjectId, learningId, mark))
  }

  function SetMarkIn(s: SubjectDto, subjectId: Id, learningId: Id, mark: Option<Mark>): SubjectDto {
    if s.subjectId != subjectId then s
    else s.(learnings := seq(|s.learnings|, j requires 0 <= j < |s.learnings| =>
                               if s.learnings[j].learningId == learningId then s.learnings[j].(mark := mark) else s.learnings[j]))
  }

  /** An edit that sets a mark is sent by the next save: the payload holds the edited
      subject with that learning and mark. */
  lemma EditIsSaved(subjects: seq<SubjectDto>, i: nat, j: nat, m: Mark)
    requires i < |subjects| && j < |subjects[i].learnings|
    ensures var edited := SetMark(subjects, subjects[i].subjectId, subjects[i].learnings[j].learningId, Some(m));
      exists k :: 0 <= k < |BuildPayload(edited)| && BuildPayload(edited)[k].subjectId == subjects[i].subjectId
        && LearningUpdate(subjects[i].learnings[j].learningId, Some(m)) in BuildPayload(edited)[k].learnings
  {
    var sid, lid := subjects[i].subjectId, subjects[i].learnings[j].learningId;
    var edited := SetMark(subjects, sid, lid, Some(m));
    var payload := BuildPayload(edited);
    assert edited[i].learnings[j].mark == Some(m);
    assert ToUpdate(edited[i].learnings[j]) in MarkedUpdates(edited[i].learnings);
    assert Stage(edited[i]) in payload;
    var k :| 0 <= k < |payload| && payload[k] == Stage(edited[i]);
  }

  // ---------------------------------------------------------------------------
  // The save as the service receives it
  // ---------------------------------------------------------------------------

  predicate HasMarked(ls: seq<LearningDto>) {
    exists j :: 0 <= j < |ls| && ls[j].mark.Some?
  }

  /** Every subject the payload names is a subject of the DTO with a marked learning. */
  lemma PayloadNamesMarkedSubjects(subjects: seq<SubjectDto>)
    ensures forall p :: 0 <= p < |BuildPayload(subjects)| ==>
              exists m :: 0 <= m < |subjects| && BuildPayload(subjects)[p].subjectId == subjects[m].subjectId
                          && HasMarked(subjects[m].learnings)
  {
    var payload := BuildPayload(subjects);
    forall p | 0 <= p < |payload|
      ensures exists m :: 0 <= m < |subjects| && payload[p].subjectId == subjects[m].subjectId && HasMarked(subjects[m].learnings)
    {
      assert payload[p] in Staged(subjects);
      var m :| 0 <= m < |subjects| && Staged(subjects)[m] == payload[p];
      assert Stage(subjects[m]) in payload;
    }
  }

  /** The payload saved from a populated valuation never names a subject none of whose
      learnings is marked. */
  lemma {:induction false} PayloadSkipsUnmarkedSubject(v: StudentValuation, dir: Directory, i: nat)
    requires v.studentId in dir.users
    requires forall k :: 0 <= k < |v.subjects| ==> v.subjects[k].subjectId in dir.subjectNames
    requires forall k, m :: 0 <= k < m < |v.subjects| ==> v.subjects[k].subjectId != v.subjects[m].subjectId
    requires i < |v.subjects|
    requires forall j :: 0 <= j < |v.subjects[i].learnings| ==> v.subjects[i].learnings[j].mark.None?
    ensures var payload := BuildPayload(Populate(v, dir).value.subjects);
      forall p :: 0 <= p < |payload| ==> payload[p].subjectId != v.subjects[i].subjectId
  {
    var d := Populate(v, dir).value;
    var payload := BuildPayload(d.subjects);
    PayloadNamesMarkedSubjects(d.subjects);
    forall p | 0 <= p < |payload|
      ensures payload[p].subjectId != v.subjects[i].subjectId
    {
      var m :| 0 <= m < |d.subjects| && payload[p].subjectId == d.subjects[m].subjectId && HasMarked(d.subjects[m].learnings);
      assert ShowsSubject(d.subjects[m], v.subjects[m], dir);
      var j :| 0 <= j < |d.subjects[m].learnings| && d.subjects[m].learnings[j].mark.Some?;
      assert ShowsLearning(d.subjects[m].learnings[j], v.subjects[m].learnings[j], dir);
      assert v.subjects[m].learnings[j].mark.Some?;
      assert m != i;
    }
  }

  /** Saving a valuation whose other subjects are all marked completes it, even though one
      subject has learnings and not one of them marked: the front end leaves that subject
      out of the payload, and the service only inspects the subjects the payload names. The
      unmarked learning stays unmarked, scored 0, in a valuation marked COMPLETED. */
  lemma SaveSkipsUntouchedSubjectYetCompletes(v: StudentValuation, dir: Directory, i: nat)
    requires v.studentId in dir.users
    requires forall k :: 0 <= k < |v.subjects| ==> v.subjects[k].subjectId in dir.subjectNames
    requires forall k, m :: 0 <= k < m < |v.subjects| ==> v.subjects[k].subjectId != v.subjects[m].subjectId
    requires i < |v.subjects| && |v.subjects[i].learnings| > 0
    requires forall j :: 0 <= j < |v.subjects[i].learnings| ==> v.subjects[i].learnings[j].mark.None?
    requires forall k :: 0 <= k < |v.subjects| && k != i ==> FullyValued(v.subjects[k])
    ensures var payload := BuildPayload(Populate(v, dir).value.subjects);
      && ApplyUpdate(v, payload).status == Completed
      && ApplyUpdate(v, payload).subjects[i].learnings[0].mark.None?
      && ApplyUpdate(v, payload).subjects[i].learnings[0].points == 0
  {
    var payload := BuildPayload(Populate(v, dir).value.subjects);
    PayloadSkipsUnmarkedSubject(v, dir, i);
    CompletedDespiteUnvaluedSubject(v, payload, i, 0);
  }
}
