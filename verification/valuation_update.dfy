/** The update step of a student valuation: merging a partial payload of marks into the
    nested subject/learning structure, deciding the global status, and, only when the
    valuation is judged complete, recomputing points, totals and percentages.

    The completeness check is modelled as the service codes it: only the subjects the
    payload names are inspected, so a subject the payload leaves out never blocks
    completion (see `CompletedDespiteUnvaluedSubject`). */
module ValuationUpdate {
  import opened Wrappers
  import opened Records
  import opened Seqs

  // ---------------------------------------------------------------------------
  // Lookup structures built from the payload (a JavaScript Map built from entries:
  // a repeated key keeps the value of its last entry)
  // ---------------------------------------------------------------------------

  function SubjectEntries(payload: UpdatePayload): (r: seq<(Id, seq<LearningUpdate>)>)
    ensures |r| == |payload|
    ensures forall i :: 0 <= i < |payload| ==> r[i] == (payload[i].subjectId, payload[i].learnings)
  {
    seq(|payload|, i requires 0 <= i < |payload| => (payload[i].subjectId, payload[i].learnings))
  }

  function LearningEntries(updates: seq<LearningUpdate>): (r: seq<(Id, Option<Mark>)>)
    ensures |r| == |updates|
    ensures forall i :: 0 <= i < |updates| ==> r[i] == (updates[i].learningId, updates[i].mark)
  {
    seq(|updates|, i requires 0 <= i < |updates| => (updates[i].learningId, updates[i].mark))
  }

  /** The learning updates the payload holds for a subject, if it names that subject. */
  function UpdatesFor(payload: UpdatePayload, subjectId: Id): Option<seq<LearningUpdate>> {
    Lookup(SubjectEntries(payload), subjectId)
  }

  /** The payload names the subject. */
  predicate Names(payload: UpdatePayload, subjectId: Id) {
    UpdatesFor(payload, subjectId).Some?
  }

  // ---------------------------------------------------------------------------
  // The merge
  // ---------------------------------------------------------------------------

  /** A learning takes the mark the subject's updates give it, explicit null included. */
  function MergeLearning(lv: LearningValuation, updates: seq<LearningUpdate>): (r: LearningValuation)
    ensures r.learningId == lv.learningId && r.points == lv.points
  {
    match Lookup(LearningEntries(updates), lv.learningId)
    case Some(m) => lv.(mark := m)
    case None => lv
  }

  /** The learnings of one subject merged with that subject's updates. */
  function MergeLearnings(ls: seq<LearningValuation>, updates: seq<LearningUpdate>): (r: seq<LearningValuation>)
    ensures |r| == |ls|
    ensures forall j :: 0 <= j < |ls| ==> r[j] == MergeLearning(ls[j], updates)
  {
    seq(|ls|, j requires 0 <= j < |ls| => MergeLearning(ls[j], updates))
  }

  function MergeSubject(s: SubjectValuation, payload: UpdatePayload): (r: SubjectValuation)
    ensures r.subjectId == s.subjectId && |r.learnings| == |s.learnings|
    ensures r.totalScore == s.totalScore && r.maxScore == s.maxScore
    ensures r.percentage == s.percentage && r.conceptId == s.conceptId
    ensures forall j :: 0 <= j < |s.learnings| ==>
      r.learnings[j].learningId == s.learnings[j].learningId && r.learnings[j].points == s.learnings[j].points
  {
    match UpdatesFor(payload, s.subjectId)
    case None => s
    case Some(updates) =>
      s.(learnings := MergeLearnings(s.learnings, updates))
  }

  /** Every subject of the document merged with the payload; ids the document does not
      hold are ignored without error. */
  function Merge(subjects: seq<SubjectValuation>, payload: UpdatePayload): (r: seq<SubjectValuation>)
    ensures |r| == |subjects|
    ensures forall i :: 0 <= i < |subjects| ==> r[i] == MergeSubject(subjects[i], payload)
  {
    seq(|subjects|, i requires 0 <= i < |subjects| => MergeSubject(subjects[i], payload))
  }

  // ---------------------------------------------------------------------------
  // Completeness and scoring
  // ---------------------------------------------------------------------------

  predicate FullyValued(s: SubjectValuation) {
    forall j :: 0 <= j < |s.learnings| ==> s.learnings[j].mark.Some?
  }

  /** The service's completeness test: every learning of every subject the payload
      names is marked. Subjects the payload leaves out are not inspected. */
  predicate CompleteAsWritten(merged: seq<SubjectValuation>, payload: UpdatePayload)
    ensures (forall i :: 0 <= i < |merged| ==> FullyValued(merged[i])) ==> CompleteAsWritten(merged, payload)
    ensures (forall i :: 0 <= i < |merged| ==> !Names(payload, merged[i].subjectId)) ==> CompleteAsWritten(merged, payload)
  {
    forall i :: 0 <= i < |merged| && Names(payload, merged[i].subjectId) ==> FullyValued(merged[i])
  }

  /** The sum of the learnings' points, accumulated front to back. With no negative
      points the sum is non-negative and holds each learning's points. */
  function SumPoints(ls: seq<LearningValuation>): (r: int)
    ensures (forall j :: 0 <= j < |ls| ==> ls[j].points >= 0) ==> r >= 0
    ensures (forall j :: 0 <= j < |ls| ==> ls[j].points >= 0) ==> forall j :: 0 <= j < |ls| ==> ls[j].points <= r
  {
    if |ls| == 0 then 0 else SumPoints(ls[..|ls| - 1]) + ls[|ls| - 1].points
  }

  /** total / max * 100, or 0 when the maximum is 0. */
  function Percentage(total: int, max: int): (r: real)
    ensures max <= 0 ==> r == 0.0
    ensures 0 <= total <= max ==> 0.0 <= r <= 100.0
    ensures 0 < max && total == max ==> r == 100.0
  {
    if max > 0 then (total as real / max as real) * 100.0 else 0.0
  }

  /** Each learning's points from its mark, the subject total as their sum, and the percentage. */
  function ScoreSubject(s: SubjectValuation): (r: SubjectValuation)
    ensures r.subjectId == s.subjectId && r.maxScore == s.maxScore && r.conceptId == s.conceptId
    ensures |r.learnings| == |s.learnings|
    ensures forall j :: 0 <= j < |s.learnings| ==>
      r.learnings[j] == s.learnings[j].(points := Points(s.learnings[j].mark))
  {
    var ls := seq(|s.learnings|, j requires 0 <= j < |s.learnings| => s.learnings[j].(points := Points(s.learnings[j].mark)));
    var total := SumPoints(ls);
    s.(learnings := ls, totalScore := total, percentage := Percentage(total, s.maxScore))
  }

  function ScoreAll(subjects: seq<SubjectValuation>): (r: seq<SubjectValuation>)
    ensures |r| == |subjects|
    ensures forall i :: 0 <= i < |subjects| ==> r[i] == ScoreSubject(subjects[i])
  {
    seq(|subjects|, i requires 0 <= i < |subjects| => ScoreSubject(subjects[i]))
  }

  /** The whole update step as one function of the loaded document and the payload. */
  function ApplyUpdate(v: StudentValuation, payload: UpdatePayload): (r: StudentValuation)
    ensures r.id == v.id && r.institutionId == v.institutionId && r.studentId == v.studentId
    ensures r.teacherId == v.teacherId && r.templateId == v.templateId && r.periodId == v.periodId
    ensures |r.subjects| == |v.subjects|
    ensures r.status != Created
  {
    var merged := Merge(v.subjects, payload);
    if CompleteAsWritten(merged, payload) then v.(status := Completed, subjects := ScoreAll(merged))
    else v.(status := InProgress, subjects := merged)
  }

  // ---------------------------------------------------------------------------
  // The loops of the service, proved against the functions above
  // ---------------------------------------------------------------------------

  /** The inner `forEach` over one named subject's learnings: takes the payload's
      marks and reports whether any learning is left unmarked. */
  method MergeSubjectMarks(learnings: seq<LearningValuation>, updates: seq<LearningUpdate>)
    returns (ls: seq<LearningValuation>, anyUnmarked: bool)
    ensures ls == MergeLearnings(learnings, updates)
    ensures anyUnmarked <==> exists m :: 0 <= m < |ls| && ls[m].mark.None?
  {
    var learningMap := LearningEntries(updates);
    ls := learnings;
    anyUnmarked := false;
    var j := 0;
    while j < |ls|
      invariant 0 <= j <= |ls| && |ls| == |learnings|
      invariant forall m :: 0 <= m < j ==> ls[m] == MergeLearning(learnings[m], updates)
      invariant forall m :: j <= m < |ls| ==> ls[m] == learnings[m]
      invariant anyUnmarked <==> exists m :: 0 <= m < j && ls[m].mark.None?
    {
      var learningVal := ls[j];
      var found := Lookup(learningMap, learningVal.learningId);
      if found.Some? {
        ls := ls[j := learningVal.(mark := found.value)];
      }
      if ls[j].mark.None? {
        anyUnmarked := true;
      }
      j := j + 1;
    }
  }

  /** The nested `forEach` that writes the payload's marks into the document and
      clears `isComplete` on any unmarked learning of a subject the payload names;
      a subject the payload does not name is skipped (the early `return`). */
  method MergeMarks(subjects: seq<SubjectValuation>, payload: UpdatePayload)
    returns (merged: seq<SubjectValuation>, isComplete: bool)
    ensures merged == Merge(subjects, payload)
    ensures isComplete == CompleteAsWritten(merged, payload)
  {
    var updateMap := SubjectEntries(payload);
    merged := subjects;
    isComplete := true;
    var i := 0;
    while i < |subjects|
      invariant 0 <= i <= |subjects| && |merged| == |subjects|
      invariant forall k :: 0 <= k < i ==> merged[k] == MergeSubject(subjects[k], payload)
      invariant forall k :: i <= k < |subjects| ==> merged[k] == subjects[k]
      invariant isComplete == forall k :: 0 <= k < i && Names(payload, subjects[k].subjectId) ==> FullyValued(merged[k])
    {
      var subject := subjects[i];
      var subjectUpdateMap := Lookup(updateMap, subject.subjectId);
      if subjectUpdateMap.Some? {
        var ls, anyUnmarked := MergeSubjectMarks(subject.learnings, subjectUpdateMap.value);
        if anyUnmarked {
          isComplete := false;
        }
        merged := merged[i := subject.(learnings := ls)];
        assert FullyValued(merged[i]) <==> !anyUnmarked;
      }
      i := i + 1;
    }
  }

  /** The scoring pass with its `totalPoints` accumulator, run over every subject. */
  method ScoreSubjects(subjects: seq<SubjectValuation>) returns (scored: seq<SubjectValuation>)
    ensures scored == ScoreAll(subjects)
  {
    scored := subjects;
    var i := 0;
    while i < |subjects|
      invariant 0 <= i <= |subjects| && |scored| == |subjects|
      invariant forall k :: 0 <= k < i ==> scored[k] == ScoreSubject(subjects[k])
      invariant forall k :: i <= k < |subjects| ==> scored[k] == subjects[k]
    {
      var subject := subjects[i];
      var ls := subject.learnings;
      var totalPoints := 0;
      var j := 0;
      while j < |ls|
        invariant 0 <= j <= |ls| && |ls| == |subject.learnings|
        invariant forall m :: 0 <= m < j ==> ls[m] == subject.learnings[m].(points := Points(subject.learnings[m].mark))
        invariant forall m :: j <= m < |ls| ==> ls[m] == subject.learnings[m]
        invariant totalPoints == SumPoints(ls[..j])
      {
        var points := Points(ls[j].mark);
        ls := ls[j := ls[j].(points := points)];
        assert ls[..j + 1] == ls[..j] + [ls[j]];
        totalPoints := totalPoints + points;
        j := j + 1;
      }
      assert ls[..|ls|] == ls;
      assert ls == ScoreSubject(subject).learnings;
      scored := scored[i := subject.(learnings := ls, totalScore := totalPoints,
                                     percentage := Percentage(totalPoints, subject.maxScore))];
      assert scored[i] == ScoreSubject(subject);
      i := i + 1;
    }
  }

  // ---------------------------------------------------------------------------
  // Properties of the update step
  // ---------------------------------------------------------------------------

  /** A learning listed in the payload under its own subject takes exactly the
      payload's value, explicit null included (the last entry wins on repeats). */
  lemma MergeTakesPayloadValue(subjects: seq<SubjectValuation>, payload: UpdatePayload, i: nat, j: nat, p: nat, q: nat)
    requires i < |subjects| && j < |subjects[i].learnings|
    requires p < |payload| && payload[p].subjectId == subjects[i].subjectId
    requires forall p' :: p < p' < |payload| ==> payload[p'].subjectId != subjects[i].subjectId
    requires q < |payload[p].learnings| && payload[p].learnings[q].learningId == subjects[i].learnings[j].learningId
    requires forall q' :: q < q' < |payload[p].learnings| ==> payload[p].learnings[q'].learningId != subjects[i].learnings[j].learningId
    ensures Merge(subjects, payload)[i].learnings[j].mark == payload[p].learnings[q].mark
  {
    LookupLast(SubjectEntries(payload), p);
    LookupLast(LearningEntries(payload[p].learnings), q);
  }

  /** A learning the payload does not list under its subject keeps its whole record. */
  lemma MergeKeepsUnlisted(subjects: seq<SubjectValuation>, payload: UpdatePayload, i: nat, j: nat)
    requires i < |subjects| && j < |subjects[i].learnings|
    requires forall p, q :: 0 <= p < |payload| && payload[p].subjectId == subjects[i].subjectId
                            && 0 <= q < |payload[p].learnings| ==>
                              payload[p].learnings[q].learningId != subjects[i].learnings[j].learningId
    ensures Merge(subjects, payload)[i].learnings[j] == subjects[i].learnings[j]
  {
    var sid := subjects[i].subjectId;
    var updates := UpdatesFor(payload, sid);
    if updates.Some? {
      var p :| 0 <= p < |SubjectEntries(payload)| && SubjectEntries(payload)[p] == (sid, updates.value);
      assert payload[p].learnings == updates.value;
    }
  }

  /** A payload that never sends null keeps a fully marked subject fully marked. */
  lemma {:induction false} MergeWithoutNullsKeepsValued(s: SubjectValuation, payload: UpdatePayload)
    requires forall p, q :: 0 <= p < |payload| && 0 <= q < |payload[p].learnings| ==> payload[p].learnings[q].mark.Some?
    requires FullyValued(s)
    ensures FullyValued(MergeSubject(s, payload))
  {
    var updates := UpdatesFor(payload, s.subjectId);
    if updates.Some? {
      var p :| 0 <= p < |SubjectEntries(payload)| && SubjectEntries(payload)[p] == (s.subjectId, updates.value);
      assert updates.value == payload[p].learnings;
      forall j | 0 <= j < |s.learnings|
        ensures MergeSubject(s, payload).learnings[j].mark.Some?
      {
        var found := Lookup(LearningEntries(updates.value), s.learnings[j].learningId);
        if found.Some? {
          var q :| 0 <= q < |LearningEntries(updates.value)| && LearningEntries(updates.value)[q] == (s.learnings[j].learningId, found.value);
          assert found.value == payload[p].learnings[q].mark;
        }
      }
    }
  }

  /** An empty payload names no subject, so the valuation is judged complete and every
      subject is scored, whatever marks are still missing. */
  lemma EmptyPayloadCompletes(v: StudentValuation)
    ensures ApplyUpdate(v, []).status == Completed
    ensures ApplyUpdate(v, []).subjects == ScoreAll(v.subjects)
  {
    assert Merge(v.subjects, []) == v.subjects;
  }

  /** The check the service codes is weaker than "every learning is marked": a subject
      the payload leaves out keeps its unmarked learnings, yet the valuation becomes
      COMPLETED and those learnings are scored 0. The front end's save never sends null
      and leaves out untouched subjects, so this is what saving a partly filled
      checklist does. */
  lemma CompletedDespiteUnvaluedSubject(v: StudentValuation, payload: UpdatePayload, i: nat, j: nat)
    requires i < |v.subjects| && j < |v.subjects[i].learnings| && v.subjects[i].learnings[j].mark.None?
    requires forall p :: 0 <= p < |payload| ==> payload[p].subjectId != v.subjects[i].subjectId
    requires forall p, q :: 0 <= p < |payload| && 0 <= q < |payload[p].learnings| ==> payload[p].learnings[q].mark.Some?
    requires forall k :: 0 <= k < |v.subjects| && k != i && Names(payload, v.subjects[k].subjectId) ==> FullyValued(v.subjects[k])
    ensures ApplyUpdate(v, payload).status == Completed
    ensures ApplyUpdate(v, payload).subjects[i].learnings[j].mark.None?
    ensures ApplyUpdate(v, payload).subjects[i].learnings[j].points == 0
  {
    var merged := Merge(v.subjects, payload);
    assert !Names(payload, v.subjects[i].subjectId);
    forall k | 0 <= k < |merged| && Names(payload, merged[k].subjectId)
      ensures FullyValued(merged[k])
    {
      MergeWithoutNullsKeepsValued(v.subjects[k], payload);
    }
    assert merged[i] == v.subjects[i];
  }

  /** If every learning of every subject is marked after the merge, the valuation is
      COMPLETED (the direction of the intended invariant that the code does keep). */
  lemma FullyValuedImpliesCompleted(v: StudentValuation, payload: UpdatePayload)
    requires forall i :: 0 <= i < |v.subjects| ==> FullyValued(Merge(v.subjects, payload)[i])
    ensures ApplyUpdate(v, payload).status == Completed
  {
  }

  /** On completion every learning of every subject, named in the payload or not, gets
      the points of its mark, and each subject's total and percentage are recomputed. */
  lemma CompletedScoresEverySubject(v: StudentValuation, payload: UpdatePayload, i: nat)
    requires ApplyUpdate(v, payload).status == Completed
    requires i < |v.subjects|
    ensures var s := ApplyUpdate(v, payload).subjects[i];
      && (forall j :: 0 <= j < |s.learnings| ==> s.learnings[j].points == Points(s.learnings[j].mark))
      && s.totalScore == SumPoints(s.learnings)
      && s.percentage == Percentage(s.totalScore, v.subjects[i].maxScore)
      && s.learnings == ScoreSubject(Merge(v.subjects, payload)[i]).learnings
  {
  }

  /** When not complete the status becomes IN_PROGRESS and every stored score — points,
      totals and percentages, stale ones included — is left exactly as it was. */
  lemma InProgressKeepsScores(v: StudentValuation, payload: UpdatePayload, i: nat)
    requires ApplyUpdate(v, payload).status != Completed
    requires i < |v.subjects|
    ensures ApplyUpdate(v, payload).status == InProgress
    ensures var s := ApplyUpdate(v, payload).subjects[i];
      && s.totalScore == v.subjects[i].totalScore
      && s.maxScore == v.subjects[i].maxScore
      && s.percentage == v.subjects[i].percentage
      && |s.learnings| == |v.subjects[i].learnings|
      && forall j :: 0 <= j < |s.learnings| ==> s.learnings[j].points == v.subjects[i].learnings[j].points
  {
  }

  /** Each learning contributes at most 3 points, so a subject's total lies in [0, 3·n]. */
  lemma {:induction false} SumPointsBounds(ls: seq<LearningValuation>)
    requires forall j :: 0 <= j < |ls| ==> ls[j].points == Points(ls[j].mark)
    ensures 0 <= SumPoints(ls) <= MaxPointsPerLearning * |ls|
    decreases |ls|
  {
    if |ls| > 0 {
      SumPointsBounds(ls[..|ls| - 1]);
    }
  }

  /** With the template's maximum (3 per learning) a scored subject's total never
      exceeds its maximum and its percentage lies in [0, 100]. */
  lemma ScoreWithinMaximum(s: SubjectValuation)
    requires s.maxScore == MaxPointsPerLearning * |s.learnings|
    ensures 0 <= ScoreSubject(s).totalScore <= s.maxScore
    ensures 0.0 <= ScoreSubject(s).percentage <= 100.0
  {
    SumPointsBounds(ScoreSubject(s).learnings);
  }

  lemma MergeLearningsIdempotent(ls: seq<LearningValuation>, updates: seq<LearningUpdate>)
    ensures MergeLearnings(MergeLearnings(ls, updates), updates) == MergeLearnings(ls, updates)
  {
  }

  /** Merging into an already merged and scored subject changes nothing. */
  lemma {:induction false} MergeIntoScored(s: SubjectValuation, payload: UpdatePayload)
    ensures MergeSubject(ScoreSubject(MergeSubject(s, payload)), payload) == ScoreSubject(MergeSubject(s, payload))
  {
    var m := MergeSubject(s, payload);
    var sc := ScoreSubject(m);
    match UpdatesFor(payload, s.subjectId)
    case None =>
    case Some(updates) =>
      assert MergeLearnings(sc.learnings, updates) == sc.learnings;
  }

  lemma {:induction false} ScoreSubjectIdempotent(s: SubjectValuation)
    ensures ScoreSubject(ScoreSubject(s)) == ScoreSubject(s)
  {
    var once := ScoreSubject(s);
    assert ScoreSubject(once).learnings == once.learnings;
  }

  /** Sending the same payload again leaves the valuation exactly as the first send did. */
  lemma {:induction false} ApplyUpdateIdempotent(v: StudentValuation, payload: UpdatePayload)
    ensures ApplyUpdate(ApplyUpdate(v, payload), payload) == ApplyUpdate(v, payload)
  {
    var merged := Merge(v.subjects, payload);
    var once := ApplyUpdate(v, payload);
    if CompleteAsWritten(merged, payload) {
      var scored := ScoreAll(merged);
      forall i | 0 <= i < |v.subjects|
        ensures MergeSubject(scored[i], payload) == scored[i]
      {
        MergeIntoScored(v.subjects[i], payload);
      }
      assert Merge(scored, payload) == scored;
      forall i | 0 <= i < |scored| && Names(payload, scored[i].subjectId)
        ensures FullyValued(scored[i])
      {
        assert FullyValued(merged[i]);
      }
      forall i | 0 <= i < |scored|
        ensures ScoreSubject(scored[i]) == scored[i]
      {
        ScoreSubjectIdempotent(merged[i]);
      }
      assert ScoreAll(scored) == scored;
    } else {
      forall i | 0 <= i < |v.subjects|
        ensures MergeSubject(merged[i], payload) == merged[i]
      {
        match UpdatesFor(payload, v.subjects[i].subjectId)
        case None =>
        case Some(updates) => MergeLearningsIdempotent(v.subjects[i].learnings, updates);
      }
      assert Merge(merged, payload) == merged;
    }
  }
}
