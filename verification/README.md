# Student valuations in Quartz, modelled in Dafny

Quartz is a school platform. A teacher grades each student once per academic period with
a **checklist**. The checklist is seeded from the teacher's **checklist template**, which
groups the period's expected learnings by subject. Each learning receives a qualitative
mark: *Logrado*, *En proceso* or *Con dificultad*. A learning may also stay unmarked (null).

A valuation (a student's checklist for one period) moves from CREATED ("Por diligenciar")
to IN_PROGRESS ("Evaluando") or COMPLETED ("Evaluado"). The move happens when the teacher
saves a partial payload of marks. Points (3/2/1/0), subject totals and percentages are
recomputed only when the service judges the valuation complete.

The project models:

- **The backend.**
  - `ValuationUpdate`: the update step: merge, completeness, scoring.
  - `ValuationService`: the valuation service over its collection: lookups scoped by
    institution, get-or-create from a template, update, delete, and population into the DTO.
  - `TemplateService`: grouping learnings into a template, and the template queries.
  - `UsersService`: the students listing with valuation summaries.
  - `RequestValidation`: the request schemas.
  - `Records`: the stored records and DTOs.
- **The teachers' front end (`quartz-web`).**
  - `WebStore`: the Zustand store.
  - `Pagination` and `ValuationTable`: the students page and table.
  - `UiState`: the status-to-state table.
  - `Checklist`: the checklist component, shared with the academic front end.
  - `DetailView`: the detail view.
  - `SavePayload`: the payload built on save. The academic page builds it the same way.
- **The academic front end (`academic-quartz-web`).**
  - `ChecklistModal`: the modal page.
  - `UserSearch`: the search box, row numbers and footer of its table.

The same Mongo collection is a `map` field of a class. The collections a service only
reads are parameters or fields. The answers the front ends get from the API are
parameters of the actions (`Result`/`Outcome`), and fresh ObjectIds are parameters too.

The central property (`ValuationUpdate.CompletedDespiteUnvaluedSubject`,
`SavePayload.SaveSkipsUntouchedSubjectYetCompletes`): the service's completeness test
inspects only the subjects that the payload names. The service's own comment
(student-valuation.service.ts:266) says the status is updated "if the valuation is
complete", and the evident intent is that every learning of every subject is marked. The
code is weaker, and the model follows the code. The teachers' detail view drops
untouched subjects from the payload before it sends the update. So take a checklist in
which one whole subject holds no mark at all and every other subject is fully marked:
saving it marks the valuation COMPLETED, and the unmarked subject's learnings stay
unmarked and score 0. Both conditions matter. If another subject is only half marked, it
is named in the payload, the test fails and the status becomes IN_PROGRESS. The academic
modal builds the same payload but never sends it: its store defines no update action, so
the call fails before any request and the failure is caught. The direction the code does
keep is proved as `FullyValuedImpliesCompleted`.

## Model

| member | source | states |
|---|---|---|
| Records.ParseMark | academic-quartz-api/src/features/student-valuation/student-valuation.types.ts:12-16 | exactly the three mark labels are marks, and parsing inverts the label of every mark |
| Records.ParseStatus | academic-quartz-api/src/features/student-valuation/student-valuation.types.ts:18-22 | exactly the three status labels of the service's enum are statuses, and parsing inverts each label |
| Records.Points | quartz-api/src/features/student-valuation/student-valuation.service.ts:269-273 | a mark earns at most 3 points, 0 exactly when unmarked, and 3 exactly for Logrado |
| Records.DefaultLearning | academic-quartz-api/src/features/student-valuation/student-valuation.model.ts:31-35 | a learning entry given only its id is unmarked, with the points of no mark |
| Records.DefaultSubject | academic-quartz-api/src/features/student-valuation/student-valuation.model.ts:37-44 | a subject entry given its id and learnings has zero scores and no concept |
| Records.HttpStatus | quartz-api/src/features/student-valuation/student-valuation.service.ts:81-84 | not-found and missing-template failures are 404, and a missing student is 500 |
| Seqs.Lookup | quartz-api/src/features/student-valuation/student-valuation.service.ts:241-246 | a key without entries is absent; otherwise the value of its last entry is found, as in a Map built from entries |
| Seqs.LookupLast | quartz-api/src/features/student-valuation/student-valuation.service.ts:241-246 | the entry that is last for its key is the one a lookup returns |
| ValuationUpdate.MergeLearning | quartz-api/src/features/student-valuation/student-valuation.service.ts:255-259 | a merge changes a learning's mark only; its id and points are kept |
| ValuationUpdate.MergeLearnings | quartz-api/src/features/student-valuation/student-valuation.service.ts:255-259 | a subject keeps its learnings in number and order, each merged on its own |
| ValuationUpdate.CompleteAsWritten | quartz-api/src/features/student-valuation/student-valuation.service.ts:251-264 | the completeness test holds when every subject is fully marked, and also whenever the payload names none of the subjects, since only named subjects are inspected |
| ValuationUpdate.SumPoints | quartz-api/src/features/student-valuation/student-valuation.service.ts:276-283 | a subject's total; with no negative points it is non-negative and at least each learning's points (its upper bound is `SumPointsBounds`) |
| ValuationUpdate.MergeSubject | quartz-api/src/features/student-valuation/student-valuation.service.ts:251-254 | merging a subject keeps its id, learning ids, points, totals, maximum, percentage and concept |
| ValuationUpdate.Merge | quartz-api/src/features/student-valuation/student-valuation.service.ts:251-265 | the merge keeps the number and order of subjects and treats each subject on its own |
| ValuationUpdate.Percentage | quartz-api/src/features/student-valuation/student-valuation.service.ts:284-286 | the percentage is 0 without a maximum, lies in [0, 100] when the total is within the maximum, and is 100 at the maximum |
| ValuationUpdate.ScoreSubject | quartz-api/src/features/student-valuation/student-valuation.service.ts:275-287 | scoring sets each learning's points from its mark and changes nothing else about the learnings |
| ValuationUpdate.ScoreAll | quartz-api/src/features/student-valuation/student-valuation.service.ts:275 | every subject, named in the payload or not, is scored |
| ValuationUpdate.ApplyUpdate | quartz-api/src/features/student-valuation/student-valuation.service.ts:240-290 | an update keeps the valuation's identity, tenant, student, teacher, template, period and subject count, and never leaves it CREATED |
| ValuationUpdate.MergeSubjectMarks | quartz-api/src/features/student-valuation/student-valuation.service.ts:255-262 | the inner loop writes the payload's marks, and reports an unmarked learning iff one remains |
| ValuationUpdate.MergeMarks | quartz-api/src/features/student-valuation/student-valuation.service.ts:248-265 | the nested loop yields the merge, and its completeness flag is the service's test over the named subjects |
| ValuationUpdate.ScoreSubjects | quartz-api/src/features/student-valuation/student-valuation.service.ts:275-287 | the scoring loop with its running total yields the scored subjects |
| ValuationUpdate.MergeTakesPayloadValue | quartz-api/src/features/student-valuation/student-valuation.service.ts:257-259 | a learning listed under its subject takes exactly the payload's mark, an explicit null included, with the last entry winning |
| ValuationUpdate.MergeKeepsUnlisted | quartz-api/src/features/student-valuation/student-valuation.service.ts:252-257 | a learning the payload does not list under its subject keeps its whole record |
| ValuationUpdate.MergeWithoutNullsKeepsValued | quartz-api/src/features/student-valuation/student-valuation.service.ts:255-259 | a payload without nulls never unmarks a fully marked subject |
| ValuationUpdate.EmptyPayloadCompletes | quartz-api/src/features/student-valuation/student-valuation.service.ts:248-275 | an empty payload completes the valuation and scores every subject, whatever is still unmarked |
| ValuationUpdate.CompletedDespiteUnvaluedSubject | quartz-api/src/features/student-valuation/student-valuation.service.ts:251-268 | a subject left out of the payload with an unmarked learning does not block COMPLETED; that learning stays unmarked and scores 0 |
| ValuationUpdate.FullyValuedImpliesCompleted | quartz-api/src/features/student-valuation/student-valuation.service.ts:248-268 | if every learning is marked after the merge, the valuation is COMPLETED |
| ValuationUpdate.CompletedScoresEverySubject | quartz-api/src/features/student-valuation/student-valuation.service.ts:267-287 | on completion every learning's points come from its mark, the total is their sum, and the percentage is computed against the template maximum |
| ValuationUpdate.InProgressKeepsScores | quartz-api/src/features/student-valuation/student-valuation.service.ts:288-290 | otherwise the status is IN_PROGRESS and every stored point, total and percentage, stale ones included, is kept |
| ValuationUpdate.SumPointsBounds | quartz-api/src/features/student-valuation/student-valuation.service.ts:276-283 | a subject's total lies between 0 and 3 points per learning |
| ValuationUpdate.ScoreWithinMaximum | quartz-api/src/features/student-valuation/student-valuation.service.ts:199 | with the template's maximum, a scored total never exceeds the maximum and the percentage lies in [0, 100] |
| ValuationUpdate.MergeLearningsIdempotent | quartz-api/src/features/student-valuation/student-valuation.service.ts:255-259 | merging the same updates twice equals merging once |
| ValuationUpdate.MergeIntoScored | quartz-api/src/features/student-valuation/student-valuation.service.ts:251-287 | re-merging a payload into a subject it already updated and scored changes nothing |
| ValuationUpdate.ScoreSubjectIdempotent | quartz-api/src/features/student-valuation/student-valuation.service.ts:275-287 | scoring a scored subject changes nothing |
| ValuationUpdate.ApplyUpdateIdempotent | quartz-api/src/features/student-valuation/student-valuation.service.ts:226-296 | sending the same payload twice leaves the valuation as the first send did |
| ValuationService.Populate | quartz-api/src/features/student-valuation/student-valuation.service.ts:71-128 | population fails with a 500 iff the student is gone; otherwise the DTO keeps identity, tenant and status, has the student's name, and shows every subject and learning in order with its name or the placeholder and empty id of a deleted one |
| ValuationService.PopulateLearning | quartz-api/src/features/student-valuation/student-valuation.service.ts:94-100 | a learning shows its stored mark and points, and its id and description when the learning exists, else the id "" and "Aprendizaje eliminado" |
| ValuationService.PopulateSubject | quartz-api/src/features/student-valuation/student-valuation.service.ts:93-111 | a subject shows its stored scores and concept, its id and name when it exists (else the id "" and "Asignatura no disponible"), and each of its learnings populated in order |
| ValuationService.FirstTemplate | quartz-api/src/features/student-valuation/student-valuation.service.ts:186-190 | the template found is the first of the teacher for the period in the institution, and none is found iff no template matches |
| ValuationService.NewValuation | quartz-api/src/features/student-valuation/student-valuation.service.ts:197-217 | a new valuation is CREATED, and has one subject per template subject in order, each learning unmarked with 0 points, zero totals and 3 points per learning as maximum |
| ValuationService.SeedSubject | quartz-api/src/features/student-valuation/student-valuation.service.ts:197-207 | a seeded subject has the template subject's id and its learnings in order, each unmarked with 0 points, totals 0, no concept, and a maximum of 3 points per learning |
| ValuationService.NewValuationIsScored | quartz-api/src/features/student-valuation/student-valuation.service.ts:197-207 | a freshly seeded subject is already consistent with the scoring of the update step |
| ValuationService.ValuationStore.constructor | academic-quartz-api/src/features/student-valuation/student-valuation.model.ts:59 | an empty collection satisfies the unique (student, period) index |
| ValuationService.ValuationStore.GetStudentValuationById | quartz-api/src/features/student-valuation/student-valuation.service.ts:135-149 | a valuation outside the institution, or with no such id, is a 404; otherwise it is the populated stored valuation |
| ValuationService.ValuationStore.GetStudentValuations | quartz-api/src/features/student-valuation/student-valuation.service.ts:151-162 | every valuation of the student in the institution is listed exactly once and populated, and the call fails iff one exists and the student is gone |
| ValuationService.ValuationStore.InitializeStudentValuation | quartz-api/src/features/student-valuation/student-valuation.service.ts:164-223 | an existing valuation of the pair in this institution is returned untouched; without one, a missing period is an error naming the period (a plain error, which the controller answers with 500), then a missing student an error naming the student (likewise a plain error answered with 500), and a missing template a 404 exactly when period and student exist; with period, student and template present, a pair held in another institution is a duplicate-key error, and a pair held nowhere inserts exactly the new CREATED valuation seeded from the first matching template and returns it populated; failures change nothing; the unique index is kept |
| ValuationService.ValuationStore.UpdateStudentValuation | quartz-api/src/features/student-valuation/student-valuation.service.ts:226-296 | a valuation outside the institution is a 404 with nothing changed; otherwise only that valuation is replaced by the update step's result and returned populated |
| ValuationService.ValuationStore.DeleteStudentValuation | quartz-api/src/features/student-valuation/student-valuation.service.ts:298-307 | only the institution's valuation is removed; anything else is a 404 with nothing changed |
| TemplateService.SubjectOrder | quartz-api/src/features/checklist-template/checklist-template.service.ts:80-87 | the subject ids are those of the learnings, each once |
| TemplateService.Derive | quartz-api/src/features/checklist-template/checklist-template.service.ts:80-92 | a template has one group per distinct subject, in order of first occurrence |
| TemplateService.LearningInOwnGroup | quartz-api/src/features/checklist-template/checklist-template.service.ts:81-87 | every fetched learning lands in the group of its own subject |
| TemplateService.LearningOnlyInOwnGroup | quartz-api/src/features/checklist-template/checklist-template.service.ts:81-87 | a learning lies in no other subject's group |
| TemplateService.NoEmptyGroup | quartz-api/src/features/checklist-template/checklist-template.service.ts:83-86 | no group is empty |
| TemplateService.GroupKeepsFetchOrder | quartz-api/src/features/checklist-template/checklist-template.service.ts:81-87 | within a group, learnings keep their fetch order |
| TemplateService.GroupsInFirstOccurrenceOrder | quartz-api/src/features/checklist-template/checklist-template.service.ts:89-92 | before any learning of a later group there is a learning of every earlier group |
| TemplateService.GroupCountIsDistinctSubjects | quartz-api/src/features/checklist-template/checklist-template.service.ts:80-92 | there are exactly as many groups as distinct subjects |
| TemplateService.CollectGroups | quartz-api/src/features/checklist-template/checklist-template.service.ts:80-87 | the scan's map has the first-occurrence key order, and each key holds that subject's learnings |
| TemplateService.GroupBySubject | academic-quartz-api/src/features/checklist-template/checklist-template.service.ts:27-39 | the loop and the entries-to-array step yield the derived template subjects |
| TemplateService.BuildTemplateQuery | quartz-api/src/features/checklist-template/checklist-template.service.ts:31-36 | the query is always scoped by teacher and institution, and by id iff a non-empty template id is given |
| TemplateService.LearningsInPeriod | quartz-api/src/features/checklist-template/checklist-template.service.ts:71-74 | the fetched learnings are exactly those of the period and institution: each one kept matches, and every matching learning is kept, in collection order |
| TemplateService.TemplateStore.constructor | academic-quartz-api/src/features/checklist-template/checklist-template.service.ts:12-16 | the store starts without templates |
| TemplateService.TemplateStore.GetChecklistTemplatesByTeacherId | quartz-api/src/features/checklist-template/checklist-template.service.ts:26-45 | exactly the templates matching the query are listed, all of the teacher and institution, with the given id when one is given, in order |
| TemplateService.TemplateStore.GetChecklistTemplatesForSession | quartz-api/src/features/checklist-template/checklist-template.service.ts:47-63 | the session gets id, name and period of each of the teacher's templates |
| TemplateService.TemplateStore.GetChecklistTemplateById | academic-quartz-api/src/features/checklist-template/checklist-template.service.ts:52-70 | the template found has the id and institution asked for, and none is found iff no template has both |
| TemplateService.TemplateStore.CreateChecklistTemplate | quartz-api/src/features/checklist-template/checklist-template.service.ts:65-100 | a period without learnings fails and stores nothing; otherwise exactly one template with the derived subjects is appended |
| TemplateService.CreatedTemplateCoversPeriod | academic-quartz-api/src/features/checklist-template/checklist-template.service.ts:18-47 | a created template has no empty subject and holds every learning of the period under its subject |
| UsersService.IdFilter | quartz-api/src/features/users/users.service.ts:23-25 | an id filter applies iff a non-empty id is given |
| UsersService.BuildUserQuery | quartz-api/src/features/users/users.service.ts:19-54 | the listing is empty iff another role is asked for or a teacher has no school; the query always asks for students of the institution, and a teacher only ever sees their own school |
| UsersService.BuildUserQueryV1 | academic-quartz-api/src/features/users/users.service.ts:14-34 | the earlier query is empty iff another role is asked for, and filters id and school iff they are given |
| UsersService.QueryUnchangedForNonTeachers | quartz-api/src/features/users/users.service.ts:47-54 | for any requestor but a teacher, the later query equals the earlier one |
| UsersService.SummariesOf | quartz-api/src/features/users/users.service.ts:93-104 | a student's summaries are their valuations' summaries, in fetch order |
| UsersService.SummariesBelongToStudent | quartz-api/src/features/users/users.service.ts:93-104 | every summary listed for a student comes from one of their valuations |
| UsersService.StudentValuationsAllListed | quartz-api/src/features/users/users.service.ts:93-104 | every valuation of a student is among their summaries |
| UsersService.NoValuationsNoSummaries | quartz-api/src/features/users/users.service.ts:108 | a student without valuations gets an empty list |
| UsersService.SchoolOf | quartz-api/src/features/users/users.service.ts:109 | the school found has the user's school id, and none is found iff no school has it |
| UsersService.Enrich | quartz-api/src/features/users/users.service.ts:107-126 | an enriched user keeps their data, and gets their school, their grades taught or an empty list, and all their summaries |
| UsersService.GroupValuations | quartz-api/src/features/users/users.service.ts:93-104 | the grouping map has a key exactly for each student with valuations, holding all of that student's summaries |
| UsersService.GetUsersByFilters | quartz-api/src/features/users/users.service.ts:17-133 | without a query the listing is empty; otherwise it lists every matching user, enriched, in order |
| UsersService.EnrichAll | quartz-api/src/features/users/users.service.ts:107-126 | the enrichment loop enriches every fetched user, in order |
| UsersService.GroupedSummaries | quartz-api/src/features/users/users.service.ts:108 | reading the grouped map, with an empty list for a missing key, yields all of the user's summaries |
| UsersService.OwnRowsAllFetched | quartz-api/src/features/users/users.service.ts:77-83 | fetching only the valuations of the listed users loses none of their summaries |
| RequestValidation.ValidateId | quartz-api/src/features/student-valuation/student-valuation.validation.ts:4 | an id is accepted iff it is a string of 24 hex digits, and it is kept as sent |
| RequestValidation.IsObjectId | quartz-api/src/features/student-valuation/student-valuation.validation.ts:4 | exactly the strings of 24 characters drawn from `[0-9a-fA-F]` |
| RequestValidation.ValidateLearning | quartz-api/src/features/student-valuation/student-valuation.validation.ts:7-10 | a learning entry is accepted iff its id is an ObjectId and its mark is a mark label or null, and it then carries that id and mark |
| RequestValidation.ValidateSubject | quartz-api/src/features/student-valuation/student-valuation.validation.ts:13-16 | a subject entry is accepted iff its id is an ObjectId and it has a learning list whose entries are all accepted, and it then carries them in order |
| RequestValidation.ValidateMark | quartz-api/src/features/student-valuation/student-valuation.validation.ts:9 | a mark is accepted iff it is one of the three labels or an explicit null; an absent mark is refused |
| RequestValidation.ValidateLearnings | quartz-api/src/features/student-valuation/student-valuation.validation.ts:15 | a learning list is accepted iff every entry is, and keeps its length and order |
| RequestValidation.ValidateUpdateBody | quartz-api/src/features/student-valuation/student-valuation.validation.ts:43-45 | a body is accepted iff every subject entry is, and yields them in order |
| RequestValidation.MarkRoundTrip | quartz-api/src/features/student-valuation/student-valuation.validation.ts:9 | an encoded mark or null validates back to itself |
| RequestValidation.UpdateBodyRoundTrip | quartz-api/src/features/student-valuation/student-valuation.validation.ts:7-16 | an encoded payload with ObjectId ids validates back to itself |
| RequestValidation.AcceptedBodyIsEncoding | quartz-api/src/features/student-valuation/student-valuation.validation.ts:39-46 | every accepted body is the encoding of the payload it yields, and all of its ids are ObjectIds |
| RequestValidation.RouteParams | quartz-api/src/features/student-valuation/student-valuation.validation.ts:19-53 | a valuation id is required exactly by the get-by-id, update and delete routes; a student id exactly by the initialize and list-by-student routes; a period id only by the initialize route; no other parameter is required |
| RequestValidation.ValidateParams | quartz-api/src/features/student-valuation/student-valuation.validation.ts:19-53 | parameters pass iff each one the route names is present and an ObjectId |
| RequestValidation.AllObjectIds | quartz-api/src/features/student-valuation/student-valuation.validation.ts:19-53 | a list of parameter names passes iff each one is present and an ObjectId |
| RequestValidation.ValidateUpdateRequest | quartz-api/src/features/student-valuation/student-valuation.validation.ts:39-46 | an update request passes iff its valuation id and its body pass, and yields both |
| UiState.ApiStatusToState | quartz-web/src/features/student-valuation/types/domain.ts:8-12 | a status string has a display state iff it is a service status label, and never maps to NOT_STARTED |
| UiState.StateOf | quartz-web/src/features/student-valuation/types/domain.ts:1-5 | a stored status never displays as NOT_STARTED |
| UiState.ApiStatusMatchesServiceLabels | quartz-web/src/features/student-valuation/types/domain.ts:8-12 | the table maps each label the service stores to that status's own state, and nothing else maps |
| UiState.ApiStatusMapInjective | quartz-web/src/features/student-valuation/types/domain.ts:8-12 | no two status strings map to the same state |
| Pagination.TotalPages | quartz-web/src/features/student-valuation/pages/StudentValuationsPage.tsx:38 | the page count is the least number of pages of ten that hold the list, and 0 for an empty list |
| Pagination.StartIndex | quartz-web/src/features/student-valuation/pages/StudentValuationsPage.tsx:39 | a page from 1 on starts at a non-negative index |
| Pagination.ClampIndex | quartz-web/src/features/student-valuation/pages/StudentValuationsPage.tsx:40 | a slice index is clamped into the list, counting a negative one from the end |
| Pagination.JsSlice | quartz-web/src/features/student-valuation/pages/StudentValuationsPage.tsx:40 | a slice with ordered non-negative bounds is the clamped window of the list |
| Pagination.PageSliceIsWindow | quartz-web/src/features/student-valuation/pages/StudentValuationsPage.tsx:38-40 | a page shows at most ten rows, namely the ten from its start cut at the list's end, and every page up to the last shows at least one |
| Pagination.PageSlice | quartz-web/src/features/student-valuation/pages/StudentValuationsPage.tsx:38-40 | the rows of a page; `Pagination.PageSliceIsWindow`, `Pagination.PagesArePrefix` and `Pagination.PagesCoverList` state which rows they are |
| Pagination.PagesArePrefix | quartz-web/src/features/student-valuation/pages/StudentValuationsPage.tsx:38-40 | the first k pages laid end to end are a prefix of the list |
| Pagination.PagesCoverList | quartz-web/src/features/student-valuation/pages/StudentValuationsPage.tsx:38-40 | all pages laid end to end are the whole list, with no row lost or repeated |
| Pagination.RowNumberIsPosition | quartz-web/src/features/student-valuation/components/StudentValuationTable.tsx:114 | the number shown before a row is its 1-based position in the whole list |
| Pagination.RowNumber | quartz-web/src/features/student-valuation/components/StudentValuationTable.tsx:114 | the number printed before a row; `Pagination.RowNumberIsPosition` states that it is the row's position in the whole list |
| Pagination.ViewFor | quartz-web/src/features/student-valuation/pages/StudentValuationsPage.tsx:33-35 | the detail view shows iff the route holds a student id |
| Pagination.ListFetch | quartz-web/src/features/student-valuation/pages/StudentValuationsPage.tsx:21-30 | the student list is requested iff someone is signed in and no student is selected |
| Pagination.FetchOnlyInListView | quartz-web/src/features/student-valuation/pages/StudentValuationsPage.tsx:21-35 | the list is only fetched while the list view shows |
| WebStore.ErrorMessage | quartz-web/src/features/student-valuation/useStudentValuationStore.ts:41-44 | the API's message wins, then the error's own message, then the fallback; an empty message falls through, and the result is never empty |
| WebStore.FinalQuery | quartz-web/src/features/student-valuation/useStudentValuationStore.ts:27-33 | the session's school is filled in only when the caller gave none; id and role are always kept |
| WebStore.PagingStaysInRange | quartz-web/src/features/student-valuation/useStudentValuationStore.ts:107-124 | paging never goes below page 1, Next from a page in range never passes the last page, and each moves exactly when there is a page to move to |
| WebStore.PagingIsReversible | quartz-web/src/features/student-valuation/useStudentValuationStore.ts:107-124 | forward then back, or back then forward, returns to the same page |
| WebStore.NextPageOf | quartz-web/src/features/student-valuation/useStudentValuationStore.ts:106-114 | the page `nextPage` moves to; `WebStore.PagingStaysInRange` and `WebStore.PagingIsReversible` state its range and its inverse |
| WebStore.PrevPageOf | quartz-web/src/features/student-valuation/useStudentValuationStore.ts:116-123 | the page `prevPage` moves to; `WebStore.PagingStaysInRange` and `WebStore.PagingIsReversible` state its range and its inverse |
| WebStore.WithoutId | quartz-web/src/features/student-valuation/useStudentValuationStore.ts:95-97 | exactly the users with another id remain, in order |
| WebStore.DeleteByValuationIdKeepsList | quartz-web/src/features/student-valuation/useStudentValuationStore.ts:92-97 | deleting by a valuation id that no user has leaves the student list as it was |
| WebStore.StudentValuationStore.constructor | quartz-web/src/features/student-valuation/useStudentValuationStore.ts:16-20 | the store starts empty, not loading, without error, on page 1 |
| WebStore.StudentValuationStore.FetchUsers | quartz-web/src/features/student-valuation/useStudentValuationStore.ts:23-49 | the page resets to 1; a success replaces the list; a failure keeps the list, and records and throws the message |
| WebStore.StudentValuationStore.FetchValuation | quartz-web/src/features/student-valuation/useStudentValuationStore.ts:51-64 | the list and page stay; a success loads the new valuation; a failure leaves none loaded and records the message |
| WebStore.StudentValuationStore.ClearValuation | quartz-web/src/features/student-valuation/useStudentValuationStore.ts:66-68 | only the current valuation and the error are cleared |
| WebStore.StudentValuationStore.UpdateValuation | quartz-web/src/features/student-valuation/useStudentValuationStore.ts:71-90 | a success replaces the current valuation only when it is the one updated, and returns the DTO; a failure keeps it, and records and throws the message |
| WebStore.StudentValuationStore.DeleteValuation | quartz-web/src/features/student-valuation/useStudentValuationStore.ts:92-104 | a success drops the users whose id equals the given id; a failure changes nothing and throws the message |
| WebStore.StudentValuationStore.NextPage | quartz-web/src/features/student-valuation/useStudentValuationStore.ts:107-115 | only the page changes, forward while there is a next page |
| WebStore.StudentValuationStore.PrevPage | quartz-web/src/features/student-valuation/useStudentValuationStore.ts:117-124 | only the page changes, back unless on page 1 |
| ValuationTable.GetValuationState | quartz-web/src/features/student-valuation/components/StudentValuationTable.tsx:50-53 | a missing, empty or unknown status shows as NOT_STARTED, a known one as its state; NOT_STARTED is shown exactly in those cases |
| ValuationTable.StoredStatusShown | quartz-web/src/features/student-valuation/components/StudentValuationTable.tsx:50-53 | every status a stored valuation can have shows as its own state, never NOT_STARTED |
| ValuationTable.StateFromFirstSummaryOnly | quartz-web/src/features/student-valuation/components/StudentValuationTable.tsx:108 | only the first summary decides a student's state, and no summary means NOT_STARTED |
| ValuationTable.DisplayedState | quartz-web/src/features/student-valuation/components/StudentValuationTable.tsx:108 | the state a student's row shows; `ValuationTable.StateFromFirstSummaryOnly` and `ValuationTable.StoredStatusShown` state what decides it |
| ValuationTable.TruthyParts | quartz-web/src/features/student-valuation/components/StudentValuationTable.tsx:100-106 | the result is exactly the values of the parts that are present and non-empty, in their order: every kept part is non-empty, and every such part is kept |
| ValuationTable.NameColumnCases | quartz-web/src/features/student-valuation/components/StudentValuationTable.tsx:100-106 | a name column shows the non-empty parts joined by one space, with no stray space from a missing part |
| ValuationTable.NameColumn | quartz-web/src/features/student-valuation/components/StudentValuationTable.tsx:100-106 | a name column; `ValuationTable.NameColumnCases` states its four cases |
| ValuationTable.ButtonsEnabledIffTheyMove | quartz-web/src/features/student-valuation/components/StudentValuationTable.tsx:184-187 | on a page in range, each paging button is enabled exactly when pressing it moves the page |
| ValuationTable.NextEnabledButInertOnEmptyList | quartz-web/src/features/student-valuation/components/StudentValuationTable.tsx:187 | with no students the Next button is enabled and pressing it does nothing |
| Checklist.Effective | quartz-web/src/features/student-valuation/components/ValuationChecklist.tsx:107 | a learning shows its local choice when that choice is a mark; otherwise (no choice or a null choice) it shows the server's mark; it shows nothing iff neither has a mark |
| Checklist.ChecklistSelections.constructor | quartz-web/src/features/student-valuation/components/ValuationChecklist.tsx:92 | the selections start as the parent's initial selections |
| Checklist.ChecklistSelections.Reset | quartz-web/src/features/student-valuation/components/ValuationChecklist.tsx:94 | new initial selections replace the local ones |
| Checklist.ChecklistSelections.HandleSelect | quartz-web/src/features/student-valuation/components/ValuationChecklist.tsx:96-100 | a choice updates one entry and is reported to the parent unchanged |
| Checklist.SelectTouchesOnlyItsLearning | academic-quartz-web/src/features/student-valuation/components/ValuationChecklist.tsx:63-67 | a choice changes what its own learning shows and nothing else, and a null choice falls back to the server's mark |
| Checklist.ValuedCount | quartz-web/src/features/student-valuation/components/ValuationChecklist.tsx:105-109 | no more learnings are valued than there are |
| Checklist.ChecklistStatus | quartz-web/src/features/student-valuation/components/ValuationChecklist.tsx:111-118 | the subject's status from the count of learnings showing a mark; `Checklist.ChecklistStatusMeaning` states what each status means over the shown marks |
| Checklist.CompletionPercentage | quartz-web/src/features/student-valuation/components/ValuationChecklist.tsx:153 | the share of valued learnings times 100, or 0 without learnings; `Checklist.CompletionMatchesStatus` states its range and its agreement with the status |
| Checklist.ChecklistStatusMeaning | quartz-web/src/features/student-valuation/components/ValuationChecklist.tsx:111-118 | NOT_STARTED iff no learning shows a mark, COMPLETED iff there are learnings and all show one, IN_PROGRESS iff some do and some do not, never CREATED |
| Checklist.CompletionMatchesStatus | quartz-web/src/features/student-valuation/components/ValuationChecklist.tsx:153 | the percentage lies in [0, 100], and is 100 iff COMPLETED and 0 iff NOT_STARTED |
| Checklist.MissingSubjectNotStarted | quartz-web/src/features/student-valuation/components/ValuationChecklist.tsx:102 | a missing subject shows no learnings, NOT_STARTED, at 0% |
| Checklist.SelectionsFrom | quartz-web/src/features/student-valuation/components/StudentValuationDetail.tsx:151-157 | the initial selections have a key for exactly the subject's learning ids |
| Checklist.InitialSelections | academic-quartz-web/src/features/student-valuation/pages/StudentValuationsPage.tsx:118-124 | the reduce over the learnings builds the initial selections, the last learning of an id winning |
| Checklist.InitialSelectionsShowServerMarks | quartz-web/src/features/student-valuation/components/StudentValuationDetail.tsx:151-157 | with distinct ids each learning's initial selection is its server mark, so it shows that mark |
| Checklist.UntouchedChecklistMatchesStored | quartz-web/src/features/student-valuation/components/ValuationChecklist.tsx:111-118 | when the subject's learning ids are distinct, before any local choice a subject shows COMPLETED iff the stored subject has learnings and all are marked |
| Checklist.SharedIdShowsLastMark | quartz-web/src/features/student-valuation/components/StudentValuationDetail.tsx:151-157 | two learnings under one id, the first unmarked and the last marked, both show the last mark after the reduce, so the untouched checklist shows COMPLETED |
| Checklist.DeletedLearningsShareOneSelection | quartz-web/src/features/student-valuation/components/ValuationChecklist.tsx:107 | two deleted learnings both get the id "", so they share the last one's selection: with the first unmarked and the second marked, the untouched checklist shows COMPLETED while the stored subject is not fully marked |
| SavePayload.MarkedUpdates | quartz-web/src/features/student-valuation/components/StudentValuationDetail.tsx:53-55 | a subject sends exactly its marked learnings, never a null, and nothing iff none is marked |
| SavePayload.BuildPayload | quartz-web/src/features/student-valuation/components/StudentValuationDetail.tsx:49-58 | a save sends no null and no empty subject, keeps the subjects' order, and sends a subject iff one of its learnings is marked |
| SavePayload.SetMark | quartz-web/src/features/student-valuation/components/StudentValuationDetail.tsx:158-181 | an edit changes the mark of the chosen learning within the chosen subject and nothing else |
| SavePayload.EditIsSaved | academic-quartz-web/src/features/student-valuation/pages/StudentValuationsPage.tsx:125-148 | a mark set by an edit is in the payload the next save builds, under its subject |
| SavePayload.PayloadNamesMarkedSubjects | academic-quartz-web/src/features/student-valuation/pages/StudentValuationsPage.tsx:65-74 | every subject named in the payload a save builds has a marked learning |
| SavePayload.SaveSkipsUntouchedSubjectYetCompletes | quartz-web/src/features/student-valuation/components/StudentValuationDetail.tsx:46-60 | saving a populated valuation with one subject entirely unmarked and all others marked makes it COMPLETED with that subject still unmarked and scored 0 |
| DetailView.DefaultOpenSubject | quartz-web/src/features/student-valuation/components/StudentValuationDetail.tsx:38-44 | an open subject stays open; a subject is newly opened only when nothing is open, a valuation with subjects is loaded and its first subject's id is non-empty, and then it is that first subject |
| DetailView.DefaultOpenSubjectIdempotent | quartz-web/src/features/student-valuation/components/StudentValuationDetail.tsx:38-44 | taking the same valuation twice opens nothing new |
| DetailView.ToggleOf | quartz-web/src/features/student-valuation/components/StudentValuationDetail.tsx:144-150 | a click opens the subject iff it was not the open one, and closes everything iff it was |
| DetailView.ToggleTwice | quartz-web/src/features/student-valuation/components/StudentValuationDetail.tsx:144-150 | two clicks restore the state unless another subject was open, which ends closed |
| DetailView.ValuationDetail.constructor | quartz-web/src/features/student-valuation/components/StudentValuationDetail.tsx:24-25 | the view starts with the store's valuation and nothing open |
| DetailView.ValuationDetail.SyncFromStore | quartz-web/src/features/student-valuation/components/StudentValuationDetail.tsx:38-44 | the local copy becomes the store's valuation, and the default subject opens |
| DetailView.ValuationDetail.Toggle | quartz-web/src/features/student-valuation/components/StudentValuationDetail.tsx:144-150 | a click changes only the open subject |
| DetailView.ValuationDetail.OnChange | quartz-web/src/features/student-valuation/components/StudentValuationDetail.tsx:158-181 | an edit applies to the local copy only when one is loaded |
| DetailView.ValuationDetail.Save | quartz-web/src/features/student-valuation/components/StudentValuationDetail.tsx:46-60 | nothing is sent without a valuation; otherwise its id and its payload are |
| DetailView.ValuationDetail.ConfirmDelete | quartz-web/src/features/student-valuation/components/StudentValuationDetail.tsx:72-76 | a delete passes the loaded valuation's own id, and nothing without one |
| ChecklistModal.SchoolListFetch | academic-quartz-web/src/features/student-valuation/pages/StudentValuationsPage.tsx:25-33 | the students of the session's school are requested iff the session has a school |
| ChecklistModal.SchoolListFetchNeedsNoFillIn | academic-quartz-web/src/features/student-valuation/pages/StudentValuationsPage.tsx:25-33 | this request needs no fill-in by the store, and equals what the teachers' store sends for the same school |
| ChecklistModal.FirstSubjectId | academic-quartz-web/src/features/student-valuation/pages/StudentValuationsPage.tsx:47 | the first subject's id opens, even an empty one, and nothing opens without subjects |
| ChecklistModal.PlaceholderFirstSubjectOpensOnlyInModal | academic-quartz-web/src/features/student-valuation/pages/StudentValuationsPage.tsx:47 | a deleted first subject opens in the modal but not in the teachers' detail view |
| ChecklistModal.FrontEndsAgreeOnRealFirstSubject | academic-quartz-web/src/features/student-valuation/pages/StudentValuationsPage.tsx:47 | with a real first subject both front ends open the same one |
| ChecklistModal.ChecklistModalPage.constructor | academic-quartz-web/src/features/student-valuation/pages/StudentValuationsPage.tsx:18-22 | the page starts closed, without valuation or open subject |
| ChecklistModal.ChecklistModalPage.OpenChecklist | academic-quartz-web/src/features/student-valuation/pages/StudentValuationsPage.tsx:35-51 | without an active period nothing is requested; a success opens the modal on the valuation with its first subject open; a failure changes nothing |
| ChecklistModal.ChecklistModalPage.Close | academic-quartz-web/src/features/student-valuation/pages/StudentValuationsPage.tsx:53-57 | closing clears the modal, its valuation and its open subject |
| ChecklistModal.ChecklistModalPage.Toggle | academic-quartz-web/src/features/student-valuation/pages/StudentValuationsPage.tsx:111-117 | a click changes only the open subject |
| ChecklistModal.ChecklistModalPage.OnChange | academic-quartz-web/src/features/student-valuation/pages/StudentValuationsPage.tsx:125-148 | an edit applies to the shown valuation only when one is shown |
| ChecklistModal.ChecklistModalPage.Save | academic-quartz-web/src/features/student-valuation/pages/StudentValuationsPage.tsx:59-85 | the payload of the marked learnings is built exactly when a valuation is shown, yet no request is ever sent and the page's state is unchanged: the store has no update action, the call fails and the failure is caught, so the modal stays open |
| UserSearch.Lower | academic-quartz-web/src/features/student-valuation/components/StudentValuationTable.tsx:45-47 | lowercasing keeps the length and lowers each ASCII letter |
| UserSearch.Includes | academic-quartz-web/src/features/student-valuation/components/StudentValuationTable.tsx:49-51 | a text includes a term iff the term occurs in it at some position |
| UserSearch.Digits | academic-quartz-web/src/features/student-valuation/components/StudentValuationTable.tsx:51 | a number prints as a non-empty string of decimal digits |
| UserSearch.DigitsDenote | academic-quartz-web/src/features/student-valuation/components/StudentValuationTable.tsx:51 | the printed digits read back in base 10 give the number itself |
| UserSearch.FilterUsers | academic-quartz-web/src/features/student-valuation/components/StudentValuationTable.tsx:43-55 | exactly the users that match the term are listed, in their original order |
| UserSearch.FullName | academic-quartz-web/src/features/student-valuation/components/StudentValuationTable.tsx:45-46 | the four name parts separated by single spaces, a missing part as empty; searched through `UserSearch.Matches` |
| UserSearch.Matches | academic-quartz-web/src/features/student-valuation/components/StudentValuationTable.tsx:47-52 | the filter's test; `UserSearch.FilterUsers`, `UserSearch.EmptyTermKeepsAll` and `UserSearch.FindsByIdOrNumber` state which users it keeps |
| UserSearch.EmptyTermKeepsAll | academic-quartz-web/src/features/student-valuation/components/StudentValuationTable.tsx:43-55 | an empty search lists every student |
| UserSearch.FindsByIdOrNumber | academic-quartz-web/src/features/student-valuation/components/StudentValuationTable.tsx:49-51 | searching a student's id, or their identification number, lists that student |
| UserSearch.RowNumber | academic-quartz-web/src/features/student-valuation/components/StudentValuationTable.tsx:137 | a row's number is its index plus 1, so rows are numbered from 1 |
| UserSearch.RowsNumberedOneToTotal | academic-quartz-web/src/features/student-valuation/components/StudentValuationTable.tsx:187 | row numbers run from 1 to the footer's total, which never exceeds the number of students |

## Left out

- Controllers, routes, authentication and the session store are not modelled. The requestor's role, school and institution are parameters.
- Mongo mechanics are not modelled: `populate`, `lean`, `save`, and ObjectId construction from strings. A fresh ObjectId is a parameter of each insertion.
- ValuationService.ValuationStore.InitializeStudentValuation: the read-then-insert race between two concurrent requests is not modelled.
- ValuationService.ValuationStore.InitializeStudentValuation: the period and student checks run concurrently in the source (`Promise.all`). The model checks the period first, so when both are missing the error names the period. The message the source then throws is the one of whichever check rejects first.
- ValuationService.ValuationStore.InitializeStudentValuation: the source looks up the existing valuation with `findOne`, which picks one document in collection order. The model picks some matching document. The unique (student, period) index allows at most one, so the result is the same.
- ValuationService.ValuationStore.GetStudentValuations: the result is ordered by collection order in the source. The model proves only that each matching valuation is listed exactly once.
- Percentages and scores are `real`. JavaScript's floating-point rounding is not modelled.
- UserSearch.Lower: lowercases ASCII letters only, whereas `toLowerCase` also folds other Unicode letters.
- The identification number is an integer. Its `toString` for non-integral numbers is not modelled.
- Transient state is not modelled: intermediate `isLoading` values, interleaved async requests, React effect timing, toasts, navigation after delete, the delete-confirmation modal's open flag, rendering and styling.
- The request schemas: zod's stripping of unknown keys and JSON values that are not strings, null or missing are not modelled. The front ends send each learning with its full DTO fields, which the schema drops.
- The template name's schema (trimming, length) and the template-creation request schema are not modelled.
- TemplateService.TemplateStore.CreateChecklistTemplate: models what the earlier snapshot returns, the created template. It does not model the later snapshot's re-read and population of that template, nor its failure message when the re-read finds nothing.
- The academic front end's store is not modelled; only its page, checklist and table are. That store defines only the user listing, so the modal's save has no update action to call (see `ChecklistModal.ChecklistModalPage.Save`).
- UsersService.BuildUserQueryV1: models the earlier snapshot's query only. That snapshot returns the users without enrichment.
- Checklist.UntouchedChecklistMatchesStored: holds only when the learning ids of the subject are distinct. Population gives every deleted learning the id "", and with two of them the checklist can show COMPLETED over an unmarked learning (`Checklist.DeletedLearningsShareOneSelection`).
- UsersService.Enrich: a user whose school is missing gets no school. The source asserts one exists.
- UiState.ApiStatusToState: the table is a plain object in the source, so a key such as `toString` would hit a prototype member. The model has exactly the three entries.
- The stored status enum in student-valuation.model.ts lists 'Valorado', 'Valorando' and 'No iniciado'. The service writes 'Evaluado', 'Evaluando' and 'Por diligenciar' from the types file. The model uses the service's labels throughout.
- The service marks a valuation COMPLETED "if the valuation is complete" (student-valuation.service.ts:266), evidently meaning every learning of every subject is marked. The code inspects only the subjects the payload names, and the model follows the code. `ValuationUpdate.CompletedDespiteUnvaluedSubject` shows the difference.
- WebStore.StudentValuationStore.DeleteValuation: as in the source, the student list is filtered by comparing user ids with a valuation id. `WebStore.DeleteByValuationIdKeepsList` shows the list is then unchanged.
