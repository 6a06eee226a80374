/** The persisted documents and the data-transfer shapes of the valuation feature:
    qualitative marks, global status, the nested valuation record with its schema
    defaults, the update payload, the enriched DTO, and the documents the services read
    (expected learnings, checklist templates). Identifiers are the hex strings an
    ObjectId prints as; the empty string is the DTO's placeholder id. */
module Records {
  import opened Wrappers

  type Id = string

  // ---------------------------------------------------------------------------
  // Qualitative marks and global status
  // ---------------------------------------------------------------------------

  /** The three qualitative marks a learning can receive. */
  datatype Mark = Achieved | InProcess | WithDifficulty

  /** The wire value of a mark. */
  function MarkLabel(m: Mark): string {
    match m
    case Achieved => "Logrado"
    case InProcess => "En proceso"
    case WithDifficulty => "Con dificultad"
  }

  /** Reading a wire value back: exactly the three labels are marks. */
  function ParseMark(s: string): (r: Option<Mark>)
    ensures r.Some? <==> s == "Logrado" || s == "En proceso" || s == "Con dificultad"
    ensures r.Some? ==> MarkLabel(r.value) == s
    ensures forall m: Mark :: MarkLabel(m) == s ==> r == Some(m)
  {
    if s == "Logrado" then Some(Achieved)
    else if s == "En proceso" then Some(InProcess)
    else if s == "Con dificultad" then Some(WithDifficulty)
    else None
  }

  /** The three states of a whole valuation; `Created` is the initial one. */
  datatype GlobalStatus = Created | InProgress | Completed

  /** The wire value of a status, as the service's enum spells it. */
  function StatusLabel(s: GlobalStatus): string {
    match s
    case Completed => "Evaluado"
    case InProgress => "Evaluando"
    case Created => "Por diligenciar"
  }

  function ParseStatus(s: string): (r: Option<GlobalStatus>)
    ensures r.Some? <==> s == "Evaluado" || s == "Evaluando" || s == "Por diligenciar"
    ensures r.Some? ==> StatusLabel(r.value) == s
    ensures forall g: GlobalStatus :: StatusLabel(g) == s ==> r == Some(g)
  {
    if s == "Evaluado" then Some(Completed)
    else if s == "Evaluando" then Some(InProgress)
    else if s == "Por diligenciar" then Some(Created)
    else None
  }

  /** The most points a single learning can earn. */
  const MaxPointsPerLearning: nat := 3

  /** Points for a mark: Logrado 3, En proceso 2, Con dificultad 1, and 0 when unmarked. */
  function Points(m: Option<Mark>): (r: nat)
    ensures r <= MaxPointsPerLearning
    ensures r == 0 <==> m.None?
    ensures r == MaxPointsPerLearning <==> m == Some(Achieved)
  {
    match m
    case None => 0
    case Some(Achieved) => 3
    case Some(InProcess) => 2
    case Some(WithDifficulty) => 1
  }

  // ---------------------------------------------------------------------------
  // The stored valuation (nested records have no own id)
  // ---------------------------------------------------------------------------

  datatype LearningValuation = LearningValuation(learningId: Id, mark: Option<Mark>, points: int)

  datatype SubjectValuation = SubjectValuation(
    subjectId: Id,
    learnings: seq<LearningValuation>,
    totalScore: int,
    maxScore: int,
    percentage: real,
    conceptId: Option<Id>)

  datatype StudentValuation = StudentValuation(
    id: Id,
    institutionId: Id,
    studentId: Id,
    teacherId: Id,
    templateId: Id,
    periodId: Id,
    status: GlobalStatus,
    subjects: seq<SubjectValuation>)

  /** A learning entry as the schema fills it when only its id is given. */
  function DefaultLearning(learningId: Id): (l: LearningValuation)
    ensures l.learningId == learningId
    ensures l.mark.None? && l.points == Points(l.mark)
  {
    LearningValuation(learningId, None, 0)
  }

  /** A subject entry as the schema fills it when only its id and learnings are given. */
  function DefaultSubject(subjectId: Id, learnings: seq<LearningValuation>): (s: SubjectValuation)
    ensures s.subjectId == subjectId && s.learnings == learnings && s.conceptId.None?
    ensures s.totalScore == 0 && s.maxScore == 0 && s.percentage == 0.0
  {
    SubjectValuation(subjectId, learnings, 0, 0, 0.0, None)
  }

  /** The collection's unique index: one valuation per (student, period). */
  ghost predicate UniquePerStudentPeriod(vals: map<Id, StudentValuation>) {
    forall a, b :: a in vals && b in vals && a != b ==>
      vals[a].studentId != vals[b].studentId || vals[a].periodId != vals[b].periodId
  }

  /** Every stored document is filed under its own id. */
  ghost predicate FiledUnderOwnId(vals: map<Id, StudentValuation>) {
    forall k :: k in vals ==> vals[k].id == k
  }

  // ---------------------------------------------------------------------------
  // The update payload
  // ---------------------------------------------------------------------------

  datatype LearningUpdate = LearningUpdate(learningId: Id, mark: Option<Mark>)
  datatype SubjectUpdate = SubjectUpdate(subjectId: Id, learnings: seq<LearningUpdate>)
  type UpdatePayload = seq<SubjectUpdate>

  // ---------------------------------------------------------------------------
  // The enriched DTO
  // ---------------------------------------------------------------------------

  datatype PersonName = PersonName(
    firstName: string,
    middleName: Option<string>,
    lastName: string,
    secondLastName: Option<string>)

  datatype LearningDto = LearningDto(learningId: Id, description: string, mark: Option<Mark>, points: int)

  datatype SubjectDto = SubjectDto(
    subjectId: Id,
    subjectName: string,
    learnings: seq<LearningDto>,
    totalScore: int,
    maxScore: int,
    percentage: real,
    conceptId: Option<Id>)

  datatype ValuationDto = ValuationDto(
    id: Id,
    institutionId: Id,
    studentId: Id,
    studentName: PersonName,
    teacherId: Id,
    templateId: Id,
    periodId: Id,
    periodName: string,
    status: GlobalStatus,
    subjects: seq<SubjectDto>)

  // ---------------------------------------------------------------------------
  // Documents the services read
  // ---------------------------------------------------------------------------

  /** An expected learning: one objective of one subject in one period. */
  datatype LearningRecord = LearningRecord(
    id: Id,
    subjectId: Id,
    periodId: Id,
    institutionId: Id,
    description: string)

  /** One subject of a checklist template and the learnings it groups. */
  datatype TemplateSubject = TemplateSubject(subjectId: Id, learnings: seq<Id>)

  datatype Template = Template(
    id: Id,
    name: string,
    institutionId: Id,
    periodId: Id,
    teacherId: Id,
    subjects: seq<TemplateSubject>)

  // ---------------------------------------------------------------------------
  // Errors the services raise
  // ---------------------------------------------------------------------------

  datatype Failure =
    | ValuationNotFound            // 'Valoración no encontrada o no pertenece a la institución.'
    | TemplateMissing              // no checklist template for the teacher's period
    | StudentMissing               // data-integrity error: the valuation's student is gone
    | DocumentMissing(name: string) // a referenced document does not exist
    | DuplicateKey                 // the (student, period) unique index rejected an insert
    | EmptyPeriod(periodId: Id)    // 'No learnings found for periodId: …'

  /** The HTTP status an application error carries; plain errors carry none. */
  function HttpStatus(f: Failure): (r: Option<nat>)
    ensures r == Some(404) <==> f.ValuationNotFound? || f.TemplateMissing?
    ensures r == Some(500) <==> f.StudentMissing?
  {
    match f
    case ValuationNotFound => Some(404)
    case TemplateMissing => Some(404)
    case StudentMissing => Some(500)
    case _ => None
  }
}
