/** The valuation service over its collection: the tenant-scoped lookups, the
    get-or-create that seeds a valuation from the teacher's checklist template, the
    update step, deletion, and the population of a stored valuation into its DTO.

    The collection is a map from valuation id to record; the documents the service only
    reads (users, periods, subject names, learning descriptions, templates) sit beside
    it. Fresh ObjectIds are a parameter of the insertion. */
module ValuationService {
  import opened Wrappers
  import opened Records
  import opened ValuationUpdate

  /** The display data population reads: person names of users, period names, subject
      names and learning descriptions, each keyed by document id. */
  datatype Directory = Directory(
    users: map<Id, PersonName>,
    periods: map<Id, string>,
    subjectNames: map<Id, string>,
    learningDescriptions: map<Id, string>)

  const PeriodPlaceholder: string := "Periodo no disponible"
  const SubjectPlaceholder: string := "Asignatura no disponible"
  const LearningPlaceholder: string := "Aprendizaje eliminado"

  // ---------------------------------------------------------------------------
  // Population into the DTO
  // ---------------------------------------------------------------------------

  function PopulateLearning(lv: LearningValuation, dir: Directory): (r: LearningDto)
    ensures ShowsLearning(r, lv, dir)
  {
    if lv.learningId in dir.learningDescriptions then
      LearningDto(lv.learningId, dir.learningDescriptions[lv.learningId], lv.mark, lv.points)
    else
      LearningDto("", LearningPlaceholder, lv.mark, lv.points)
  }

  function PopulateSubject(s: SubjectValuation, dir: Directory): (r: SubjectDto)
    ensures ShowsSubject(r, s, dir)
  {
    var learnings := seq(|s.learnings|, j requires 0 <= j < |s.learnings| => PopulateLearning(s.learnings[j], dir));
    if s.subjectId in dir.subjectNames then
      SubjectDto(s.subjectId, dir.subjectNames[s.subjectId], learnings, s.totalScore, s.maxScore, s.percentage, s.conceptId)
    else
      SubjectDto("", SubjectPlaceholder, learnings, s.totalScore, s.maxScore, s.percentage, s.conceptId)
  }

  /** The enriched DTO of a stored valuation. A missing student is an integrity error;
      a missing period, subject or learning is shown with id "" and a placeholder. */
  function Populate(v: StudentValuation, dir: Directory): (r: Result<ValuationDto, Failure>)
    ensures r.Err? <==> v.studentId !in dir.users
    ensures r.Err? ==> r.error == StudentMissing && HttpStatus(r.error) == Some(500)
    ensures r.Ok? ==> var d := r.value;
      && d.id == v.id && d.institutionId == v.institutionId && d.studentId == v.studentId
      && d.teacherId == v.teacherId && d.templateId == v.templateId && d.status == v.status
      && d.studentName == dir.users[v.studentId]
      && (v.periodId in dir.periods ==> d.periodId == v.periodId && d.periodName == dir.periods[v.periodId])
      && (v.periodId !in dir.periods ==> d.periodId == "" && d.periodName == PeriodPlaceholder)
      && |d.subjects| == |v.subjects|
      && forall i :: 0 <= i < |v.subjects| ==> ShowsSubject(d.subjects[i], v.subjects[i], dir)
  {
    if v.studentId !in dir.users then Err(StudentMissing)
    else
      var subjects := seq(|v.subjects|, i requires 0 <= i < |v.subjects| => PopulateSubject(v.subjects[i], dir));
      var periodId := if v.periodId in dir.periods then v.periodId else "";
      var periodName := if v.periodId in dir.periods then dir.periods[v.periodId] else PeriodPlaceholder;
      Ok(ValuationDto(v.id, v.institutionId, v.studentId, dir.users[v.studentId], v.teacherId,
                      v.templateId, periodId, periodName, v.status, subjects))
  }

  /** A DTO subject shows the stored subject: same scores and learnings in the same order,
      with the name or the placeholder for a deleted subject or learning. */
  ghost predicate ShowsSubject(d: SubjectDto, s: SubjectValuation, dir: Directory) {
    && d.totalScore == s.totalScore && d.maxScore == s.maxScore
    && d.percentage == s.percentage && d.conceptId == s.conceptId
    && (s.subjectId in dir.subjectNames ==> d.subjectId == s.subjectId && d.subjectName == dir.subjectNames[s.subjectId])
    && (s.subjectId !in dir.subjectNames ==> d.subjectId == "" && d.subjectName == SubjectPlaceholder)
    && |d.learnings| == |s.learnings|
    && forall j :: 0 <= j < |s.learnings| ==> ShowsLearning(d.learnings[j], s.learnings[j], dir)
  }

  ghost predicate ShowsLearning(d: LearningDto, l: LearningValuation, dir: Directory) {
    && d.mark == l.mark && d.points == l.points
    && (l.learningId in dir.learningDescriptions ==>
          d.learningId == l.learningId && d.description == dir.learningDescriptions[l.learningId])
    && (l.learningId !in dir.learningDescriptions ==> d.learningId == "" && d.description == LearningPlaceholder)
  }

  // ---------------------------------------------------------------------------
  // Seeding a valuation from a template
  // ---------------------------------------------------------------------------

  /** The first template of the teacher for the period within the institution, in
      collection order. */
  function FirstTemplate(templates: seq<Template>, teacherId: Id, periodId: Id, institutionId: Id): (r: Option<Template>)
    ensures r.None? <==> forall i :: 0 <= i < |templates| ==> !TemplateFor(templates[i], teacherId, periodId, institutionId)
    ensures r.Some? ==> exists i :: 0 <= i < |templates| && templates[i] == r.value
                                    && TemplateFor(r.value, teacherId, periodId, institutionId)
                                    && forall j :: 0 <= j < i ==> !TemplateFor(templates[j], teacherId, periodId, institutionId)
  {
    if |templates| == 0 then None
    else if TemplateFor(templates[0], teacherId, periodId, institutionId) then Some(templates[0])
    else
      var rest := FirstTemplate(templates[1..], teacherId, periodId, institutionId);
      assert rest.Some? ==> exists i :: 0 <= i < |templates[1..]| && templates[1..][i] == rest.value
                                        && TemplateFor(rest.value, teacherId, periodId, institutionId)
                                        && forall j :: 0 <= j < i ==> !TemplateFor(templates[1..][j], teacherId, periodId, institutionId);
      rest
  }

  predicate TemplateFor(t: Template, teacherId: Id, periodId: Id, institutionId: Id) {
    t.teacherId == teacherId && t.periodId == periodId && t.institutionId == institutionId
  }

  function SeedSubject(ts: TemplateSubject): (r: SubjectValuation)
    ensures SeededFrom(r, ts)
  {
    var learnings := seq(|ts.learnings|, j requires 0 <= j < |ts.learnings| => DefaultLearning(ts.learnings[j]));
    DefaultSubject(ts.subjectId, learnings).(maxScore := |ts.learnings| * MaxPointsPerLearning)
  }

  /** A fresh valuation built from a template: one subject per template subject in
      template order, each learning unmarked with 0 points, totals and percentages 0,
      the maximum 3 points per learning, and status CREATED. */
  function NewValuation(id: Id, institutionId: Id, studentId: Id, teacherId: Id, periodId: Id, t: Template): (v: StudentValuation)
    ensures v.id == id && v.institutionId == institutionId && v.studentId == studentId
    ensures v.teacherId == teacherId && v.periodId == periodId && v.templateId == t.id
    ensures v.status == Created
    ensures |v.subjects| == |t.subjects|
    ensures forall i :: 0 <= i < |t.subjects| ==> SeededFrom(v.subjects[i], t.subjects[i])
  {
    StudentValuation(id, institutionId, studentId, teacherId, t.id, periodId, Created,
      seq(|t.subjects|, i requires 0 <= i < |t.subjects| => SeedSubject(t.subjects[i])))
  }

  ghost predicate SeededFrom(s: SubjectValuation, ts: TemplateSubject) {
    && s.subjectId == ts.subjectId
    && s.maxScore == MaxPointsPerLearning * |ts.learnings|
    && s.totalScore == 0 && s.percentage == 0.0 && s.conceptId.None?
    && |s.learnings| == |ts.learnings|
    && forall j :: 0 <= j < |ts.learnings| ==>
         s.learnings[j].learningId == ts.learnings[j] && s.learnings[j].mark.None? && s.learnings[j].points == 0
  }

  /** A freshly seeded valuation is already scored consistently: applying the scoring of
      the update step to any of its subjects changes nothing. */
  lemma NewValuationIsScored(id: Id, institutionId: Id, studentId: Id, teacherId: Id, periodId: Id, t: Template, i: nat)
    requires i < |t.subjects|
    ensures var s := NewValuation(id, institutionId, studentId, teacherId, periodId, t).subjects[i];
      ScoreSubject(s) == s
  {
    var s := NewValuation(id, institutionId, studentId, teacherId, periodId, t).subjects[i];
    assert SeededFrom(s, t.subjects[i]);
    var r := ScoreSubject(s);
    assert r.learnings == s.learnings;
    ZeroPoints(s.learnings);
    assert r.totalScore == 0;
    assert r.percentage == 0.0;
  }

  lemma {:induction false} ZeroPoints(ls: seq<LearningValuation>)
    requires forall j :: 0 <= j < |ls| ==> ls[j].mark.None? && ls[j].points == 0
    ensures SumPoints(ls) == 0
    decreases |ls|
  {
    if |ls| > 0 {
      ZeroPoints(ls[..|ls| - 1]);
    }
  }

  /** The stored valuation of the institution with the given id, if any. */
  predicate Scoped(valuations: map<Id, StudentValuation>, valuationId: Id, institutionId: Id) {
    valuationId in valuations && valuations[valuationId].institutionId == institutionId
  }

  predicate SameStudentPeriod(v: StudentValuation, studentId: Id, periodId: Id) {
    v.studentId == studentId && v.periodId == periodId
  }

  /** Some stored valuation is the student's for the period, in any institution. */
  predicate HoldsPair(valuations: map<Id, StudentValuation>, studentId: Id, periodId: Id) {
    exists k :: k in valuations && SameStudentPeriod(valuations[k], studentId, periodId)
  }

  /** Some stored valuation is the student's for the period in the given institution. */
  predicate HoldsPairIn(valuations: map<Id, StudentValuation>, studentId: Id, periodId: Id, institutionId: Id) {
    exists k :: k in valuations && SameStudentPeriod(valuations[k], studentId, periodId)
                && valuations[k].institutionId == institutionId
  }

  // ---------------------------------------------------------------------------
  // The collection and the service operations
  // ---------------------------------------------------------------------------

  class ValuationStore {
    var valuations: map<Id, StudentValuation>
    var templates: seq<Template>
    var directory: Directory

    /** Each record is filed under its own id and the (student, period) index is unique. */
    ghost predicate Valid()
      reads this
    {
      FiledUnderOwnId(valuations) && UniquePerStudentPeriod(valuations)
    }

    constructor (templates: seq<Template>, directory: Directory)
      ensures Valid()
      ensures this.valuations == map[] && this.templates == templates && this.directory == directory
    {
      this.valuations := map[];
      this.templates := templates;
      this.directory := directory;
    }

    /** Lookup by id and institution: a miss, cross-tenant ones included, is a 404. */
    function GetStudentValuationById(valuationId: Id, institutionId: Id): (r: Result<ValuationDto, Failure>)
      reads this
      requires Valid()
      ensures !Scoped(valuations, valuationId, institutionId) ==> r == Err(ValuationNotFound)
      ensures r.Ok? ==> r.value.id == valuationId && r.value.institutionId == institutionId
      ensures Scoped(valuations, valuationId, institutionId) ==> r == Populate(valuations[valuationId], directory)
    {
      if Scoped(valuations, valuationId, institutionId) then Populate(valuations[valuationId], directory)
      else Err(ValuationNotFound)
    }

    /** The ids of a set, each once, in some order: the order in which the collection
        happens to return its documents. */
    static method Enumerate(s: set<Id>) returns (ids: seq<Id>)
      ensures |ids| == |s|
      ensures forall k :: k in s <==> k in ids
      ensures forall i :: 0 <= i < |ids| ==> ids[i] in s
      ensures forall i, j :: 0 <= i < j < |ids| ==> ids[i] != ids[j]
    {
      var pending := s;
      ids := [];
      while pending != {}
        invariant pending <= s
        invariant forall k :: k in s <==> k in ids || k in pending
        invariant forall k :: k in ids ==> k !in pending
        invariant forall i, j :: 0 <= i < j < |ids| ==> ids[i] != ids[j]
        invariant |ids| + |pending| == |s|
        decreases |pending|
      {
        var k :| k in pending;
        ids := ids + [k];
        pending := pending - {k};
      }
    }

    ghost function Matching(studentId: Id, institutionId: Id): set<Id>
      reads this
    {
      set k | k in valuations && valuations[k].studentId == studentId && valuations[k].institutionId == institutionId
    }

    /** Every valuation of the student within the institution, populated; the collection
        has no order, so the result lists each matching valuation exactly once. */
    method GetStudentValuations(studentId: Id, institutionId: Id) returns (r: Result<seq<ValuationDto>, Failure>)
      requires Valid()
      ensures r.Err? <==> Matching(studentId, institutionId) != {} && studentId !in directory.users
      ensures r.Err? ==> r.error == StudentMissing
      ensures r.Ok? ==> |r.value| == |Matching(studentId, institutionId)|
      ensures r.Ok? ==> forall i :: 0 <= i < |r.value| ==>
                r.value[i].id in Matching(studentId, institutionId)
                && Populate(valuations[r.value[i].id], directory) == Ok(r.value[i])
      ensures r.Ok? ==> forall k :: k in Matching(studentId, institutionId) ==>
                exists i :: 0 <= i < |r.value| && r.value[i].id == k
      ensures r.Ok? ==> forall i, j :: 0 <= i < j < |r.value| ==> r.value[i].id != r.value[j].id
    {
      var matching := set k | k in valuations && valuations[k].studentId == studentId && valuations[k].institutionId == institutionId;
      assert matching == Matching(studentId, institutionId);
      var ids := Enumerate(matching);
      var dtos: seq<ValuationDto> := [];
      for i := 0 to |ids|
        invariant |dtos| == i
        invariant forall j :: 0 <= j < |ids| ==> ids[j] in matching
        invariant forall j :: 0 <= j < i ==> dtos[j].id == ids[j] && Populate(valuations[ids[j]], directory) == Ok(dtos[j])
        invariant i > 0 ==> studentId in directory.users
      {
        var populated := Populate(valuations[ids[i]], directory);
        if populated.Err? {
          assert ids[i] in matching;
          return Err(populated.error);
        }
        assert valuations[ids[i]].id == ids[i];
        dtos := dtos + [populated.value];
      }
      forall k | k in matching
        ensures exists i :: 0 <= i < |dtos| && dtos[i].id == k
      {
        var i :| 0 <= i < |ids| && ids[i] == k;
        assert dtos[i].id == k;
      }
      return Ok(dtos);
    }

    /** Get-or-create: an existing valuation of the student for the period in the
        institution is returned untouched; otherwise the period and the student must
        exist, the teacher's template must exist (404 otherwise), and a new CREATED
        valuation seeded from it is inserted under `newId`, unless the (student, period)
        index already holds a valuation of another institution. */
    method InitializeStudentValuation(studentId: Id, teacherId: Id, institutionId: Id, periodId: Id, newId: Id)
      returns (r: Result<ValuationDto, Failure>)
      requires Valid()
      requires newId !in valuations
      modifies this
      ensures Valid()
      ensures templates == old(templates) && directory == old(directory)
      ensures forall k :: k in old(valuations) && SameStudentPeriod(old(valuations)[k], studentId, periodId)
                          && old(valuations)[k].institutionId == institutionId ==>
                valuations == old(valuations) && r == Populate(old(valuations)[k], directory)
      ensures r.Ok? && valuations != old(valuations) ==>
                var t := FirstTemplate(templates, teacherId, periodId, institutionId);
                && t.Some?
                && valuations == old(valuations)[newId := NewValuation(newId, institutionId, studentId, teacherId, periodId, t.value)]
                && r == Populate(valuations[newId], directory)
      ensures r.Err? ==> valuations == old(valuations)
      ensures r == Err(TemplateMissing) <==>
                && (forall k :: k in old(valuations) && SameStudentPeriod(old(valuations)[k], studentId, periodId) ==>
                      old(valuations)[k].institutionId != institutionId)
                && periodId in directory.periods && studentId in directory.users
                && FirstTemplate(templates, teacherId, periodId, institutionId).None?
      ensures valuations == old(valuations) || valuations == old(valuations)[newId := valuations[newId]]
      ensures !HoldsPairIn(old(valuations), studentId, periodId, institutionId) && periodId !in directory.periods ==>
                r == Err(DocumentMissing("Periodo"))
      ensures !HoldsPairIn(old(valuations), studentId, periodId, institutionId) && periodId in directory.periods
              && studentId !in directory.users ==>
                r == Err(DocumentMissing("Estudiante"))
      ensures !HoldsPairIn(old(valuations), studentId, periodId, institutionId) && HoldsPair(old(valuations), studentId, periodId)
              && periodId in directory.periods && studentId in directory.users
              && FirstTemplate(templates, teacherId, periodId, institutionId).Some? ==>
                r == Err(DuplicateKey)
      ensures !HoldsPair(old(valuations), studentId, periodId)
              && periodId in directory.periods && studentId in directory.users
              && FirstTemplate(templates, teacherId, periodId, institutionId).Some? ==>
                && valuations == old(valuations)[newId := NewValuation(newId, institutionId, studentId, teacherId, periodId,
                                                                       FirstTemplate(templates, teacherId, periodId, institutionId).value)]
                && r == Populate(valuations[newId], directory)
    {
      var existing := set k | k in valuations && SameStudentPeriod(valuations[k], studentId, periodId);
      if existing != {} {
        var k :| k in existing;
        if valuations[k].institutionId == institutionId {
          r := Populate(valuations[k], directory);
          return;
        }
        // by the unique index, `k` is the only valuation of the student for the period
        assert existing == {k};
      }
      forall k | k in valuations && SameStudentPeriod(valuations[k], studentId, periodId)
        ensures valuations[k].institutionId != institutionId
      {
        assert k in existing;
      }
      if periodId !in directory.periods {
        return Err(DocumentMissing("Periodo"));
      }
      if studentId !in directory.users {
        return Err(DocumentMissing("Estudiante"));
      }
      var template := FirstTemplate(templates, teacherId, periodId, institutionId);
      if template.None? {
        return Err(TemplateMissing);
      }
      if existing != {} {
        // the unique (studentId, periodId) index rejects the insert
        return Err(DuplicateKey);
      }
      var created := NewValuation(newId, institutionId, studentId, teacherId, periodId, template.value);
      forall k | k in valuations
        ensures !SameStudentPeriod(valuations[k], studentId, periodId)
      {
        assert k !in existing;
      }
      valuations := valuations[newId := created];
      r := Populate(created, directory);
    }

    /** The update step on the stored valuation of the institution: merge, decide the
        status and score on completion, then store and return the populated DTO. */
    method UpdateStudentValuation(valuationId: Id, institutionId: Id, payload: UpdatePayload)
      returns (r: Result<ValuationDto, Failure>)
      requires Valid()
      modifies this
      ensures Valid()
      ensures templates == old(templates) && directory == old(directory)
      ensures !Scoped(old(valuations), valuationId, institutionId) ==>
                valuations == old(valuations) && r == Err(ValuationNotFound)
      ensures Scoped(old(valuations), valuationId, institutionId) ==>
                && valuations == old(valuations)[valuationId := ApplyUpdate(old(valuations)[valuationId], payload)]
                && r == Populate(valuations[valuationId], directory)
    {
      if !Scoped(valuations, valuationId, institutionId) {
        return Err(ValuationNotFound);
      }
      var v := valuations[valuationId];
      var merged, isComplete := MergeMarks(v.subjects, payload);
      var updated;
      if isComplete {
        var scored := ScoreSubjects(merged);
        updated := v.(status := Completed, subjects := scored);
      } else {
        updated := v.(status := InProgress, subjects := merged);
      }
      assert updated == ApplyUpdate(v, payload);
      valuations := valuations[valuationId := updated];
      r := Populate(updated, directory);
    }

    /** Deletion scoped by institution; removing nothing is a 404. */
    method DeleteStudentValuation(valuationId: Id, institutionId: Id) returns (r: Outcome<Failure>)
      requires Valid()
      modifies this
      ensures Valid()
      ensures templates == old(templates) && directory == old(directory)
      ensures Scoped(old(valuations), valuationId, institutionId) ==>
                r == Pass && valuations == old(valuations) - {valuationId}
      ensures !Scoped(old(valuations), valuationId, institutionId) ==>
                r == Fail(ValuationNotFound) && valuations == old(valuations)
    {
      if Scoped(valuations, valuationId, institutionId) {
        valuations := valuations - {valuationId};
        return Pass;
      }
      return Fail(ValuationNotFound);
    }
  }
}
