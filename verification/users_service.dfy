/** Listing the students of an institution for the valuation screens: the user query
    built from the request filters and the requestor's session (both service
    snapshots), the grouping of valuation summaries per student, and the enrichment of
    each fetched user with their school and summaries. The collections the service reads
    (users, valuations, schools) are parameters, in collection order. */
module UsersService {
  import opened Wrappers
  import opened Records
  import opened Seqs

  datatype Role = AreaHead | Teacher | Student

  /** The wire value of a role. */
  function RoleLabel(r: Role): string {
    match r
    case AreaHead => "Jefe de Área"
    case Teacher => "Docente"
    case Student => "Estudiante"
  }

  /** Request filters plus the requestor's role and school from the session. */
  datatype UserFilters = UserFilters(
    institutionId: Id,
    id: Option<string>,
    role: Option<string>,
    schoolId: Option<string>,
    requestorRole: Option<Role>,
    requestorSchoolId: Option<string>)

  /** The query sent to the user collection; its role is always a student. */
  datatype UserQuery = UserQuery(institutionId: Id, id: Option<Id>, role: Role, schoolId: Option<Id>)

  /** The role filter: an absent (or empty) role means students; any other role but
      "Estudiante" means the listing is empty. */
  predicate AsksForOtherRole(role: Option<string>) {
    Present(role) && role.value != RoleLabel(Student)
  }

  function IdFilter(id: Option<string>): (r: Option<Id>)
    ensures r.Some? <==> Present(id)
    ensures r.Some? ==> r == id
  {
    if Present(id) then id else None
  }

  /** The query of the later snapshot, or `None` when the listing is empty without a
      query: another role was asked for, or a teacher has no school in their session.
      A teacher only ever sees their own school, whatever school the request names. */
  function BuildUserQuery(f: UserFilters): (r: Option<UserQuery>)
    ensures r.None? <==> AsksForOtherRole(f.role) || (f.requestorRole == Some(Teacher) && !Present(f.requestorSchoolId))
    ensures r.Some? ==> r.value.institutionId == f.institutionId && r.value.role == Student
    ensures r.Some? ==> r.value.id == IdFilter(f.id)
    ensures r.Some? && f.requestorRole == Some(Teacher) ==> r.value.schoolId == f.requestorSchoolId
    ensures r.Some? && f.requestorRole != Some(Teacher) ==> r.value.schoolId == IdFilter(f.schoolId)
  {
    if AsksForOtherRole(f.role) then None
    else if f.requestorRole == Some(Teacher) then
      if Present(f.requestorSchoolId) then Some(UserQuery(f.institutionId, IdFilter(f.id), Student, f.requestorSchoolId))
      else None
    else Some(UserQuery(f.institutionId, IdFilter(f.id), Student, IdFilter(f.schoolId)))
  }

  /** The query of the earlier snapshot, which knows nothing of the requestor. */
  function BuildUserQueryV1(institutionId: Id, id: Option<string>, role: Option<string>, schoolId: Option<string>): (r: Option<UserQuery>)
    ensures r.None? <==> AsksForOtherRole(role)
    ensures r.Some? ==> r.value.institutionId == institutionId && r.value.role == Student
    ensures r.Some? ==> (r.value.id.Some? <==> Present(id)) && (r.value.schoolId.Some? <==> Present(schoolId))
  {
    if AsksForOtherRole(role) then None
    else Some(UserQuery(institutionId, IdFilter(id), Student, IdFilter(schoolId)))
  }

  /** The later snapshot only adds the teacher rule: for any other requestor it builds
      the earlier snapshot's query. */
  lemma QueryUnchangedForNonTeachers(f: UserFilters)
    requires f.requestorRole != Some(Teacher)
    ensures BuildUserQuery(f) == BuildUserQueryV1(f.institutionId, f.id, f.role, f.schoolId)
  {
  }

  // ---------------------------------------------------------------------------
  // Users, valuation summaries and schools
  // ---------------------------------------------------------------------------

  datatype UserRecord = UserRecord(
    id: Id,
    institutionId: Id,
    role: Role,
    name: PersonName,
    identificationNumber: int,
    schoolId: Id,
    gradesTaught: Option<seq<string>>)

  predicate MatchesQuery(u: UserRecord, q: UserQuery) {
    && u.institutionId == q.institutionId && u.role == q.role
    && (q.id.Some? ==> u.id == q.id.value)
    && (q.schoolId.Some? ==> u.schoolId == q.schoolId.value)
  }

  /** What the valuation collection yields for a student: id, period and status. */
  datatype ValuationRow = ValuationRow(id: Id, studentId: Id, periodId: Id, status: Option<GlobalStatus>)

  datatype ValuationSummary = ValuationSummary(id: Id, periodId: Id, status: Option<GlobalStatus>)

  datatype School = School(id: Id, schoolNumber: int, name: string)

  datatype UserWithValuations = UserWithValuations(
    id: Id,
    role: Role,
    name: PersonName,
    identificationNumber: int,
    school: Option<School>,
    gradesTaught: seq<string>,
    valuations: seq<ValuationSummary>)

  function Summarize(row: ValuationRow): ValuationSummary {
    ValuationSummary(row.id, row.periodId, row.status)
  }

  function OfStudent(studentId: Id): ValuationRow -> bool {
    (row: ValuationRow) => row.studentId == studentId
  }

  /** The summaries of one student's valuations, in fetch order. */
  function SummariesOf(rows: seq<ValuationRow>, studentId: Id): (r: seq<ValuationSummary>)
    ensures |r| == |Filter(rows, OfStudent(studentId))|
    ensures forall k :: 0 <= k < |r| ==> r[k] == Summarize(Filter(rows, OfStudent(studentId))[k])
  {
    var mine := Filter(rows, OfStudent(studentId));
    seq(|mine|, k requires 0 <= k < |mine| => Summarize(mine[k]))
  }

  /** Every summary listed for a student comes from one of that student's valuations. */
  lemma SummariesBelongToStudent(rows: seq<ValuationRow>, studentId: Id, k: nat)
    requires k < |SummariesOf(rows, studentId)|
    ensures exists i :: 0 <= i < |rows| && rows[i].studentId == studentId
                        && Summarize(rows[i]) == SummariesOf(rows, studentId)[k]
  {
    var mine := Filter(rows, OfStudent(studentId));
    assert OfStudent(studentId)(mine[k]);
  }

  /** Every valuation of the student is listed among their summaries. */
  lemma StudentValuationsAllListed(rows: seq<ValuationRow>, studentId: Id, i: nat)
    requires i < |rows| && rows[i].studentId == studentId
    ensures Summarize(rows[i]) in SummariesOf(rows, studentId)
  {
    var mine := Filter(rows, OfStudent(studentId));
    assert OfStudent(studentId)(rows[i]);
    var k :| 0 <= k < |mine| && mine[k] == rows[i];
    assert SummariesOf(rows, studentId)[k] == Summarize(rows[i]);
  }

  /** A student without valuations gets no summaries. */
  lemma NoValuationsNoSummaries(rows: seq<ValuationRow>, studentId: Id)
    requires forall i :: 0 <= i < |rows| ==> rows[i].studentId != studentId
    ensures SummariesOf(rows, studentId) == []
  {
    FilterKeepsNone(rows, OfStudent(studentId));
  }

  /** The school a user is attached to: the first school with that id, if any. */
  function SchoolOf(schools: seq<School>, schoolId: Id): (r: Option<School>)
    ensures r.None? <==> forall k :: 0 <= k < |schools| ==> schools[k].id != schoolId
    ensures r.Some? ==> r.value in schools && r.value.id == schoolId
  {
    var hits := Filter(schools, (s: School) => s.id == schoolId);
    if |hits| == 0 then None else Some(hits[0])
  }

  /** A fetched user as the listing returns them. */
  function Enrich(u: UserRecord, rows: seq<ValuationRow>, schools: seq<School>): (r: UserWithValuations)
    ensures r.id == u.id && r.role == u.role && r.name == u.name && r.identificationNumber == u.identificationNumber
    ensures r.school == SchoolOf(schools, u.schoolId)
    ensures u.gradesTaught.None? ==> r.gradesTaught == []
    ensures u.gradesTaught.Some? ==> r.gradesTaught == u.gradesTaught.value
    ensures r.valuations == SummariesOf(rows, u.id)
  {
    UserWithValuations(u.id, u.role, u.name, u.identificationNumber, SchoolOf(schools, u.schoolId),
                       u.gradesTaught.GetOr([]), SummariesOf(rows, u.id))
  }

  // ---------------------------------------------------------------------------
  // The service's loops
  // ---------------------------------------------------------------------------

  /** Group the fetched valuations by student id into a map of summary lists. */
  method GroupValuations(rows: seq<ValuationRow>) returns (groups: map<Id, seq<ValuationSummary>>)
    ensures forall sid :: sid in groups <==> exists i :: 0 <= i < |rows| && rows[i].studentId == sid
    ensures forall sid :: sid in groups ==> groups[sid] == SummariesOf(rows, sid)
  {
    groups := map[];
    for i := 0 to |rows|
      invariant forall sid :: sid in groups <==> exists j :: 0 <= j < i && rows[j].studentId == sid
      invariant forall sid :: sid in groups ==> groups[sid] == SummariesOf(rows[..i], sid)
    {
      var sid := rows[i].studentId;
      if sid !in groups {
        NoValuationsNoSummaries(rows[..i], sid);
        groups := groups[sid := []];
      }
      groups := groups[sid := groups[sid] + [Summarize(rows[i])]];
      forall s | s in groups
        ensures groups[s] == SummariesOf(rows[..i + 1], s)
      {
        SummariesStep(rows, i, s);
      }
    }
    assert rows[..|rows|] == rows;
  }

  lemma SummariesStep(rows: seq<ValuationRow>, i: nat, studentId: Id)
    requires i < |rows|
    ensures SummariesOf(rows[..i + 1], studentId)
         == SummariesOf(rows[..i], studentId) + (if rows[i].studentId == studentId then [Summarize(rows[i])] else [])
  {
    assert rows[..i + 1][..i] == rows[..i];
    assert Filter(rows[..i + 1], OfStudent(studentId))
        == Filter(rows[..i], OfStudent(studentId)) + (if OfStudent(studentId)(rows[i]) then [rows[i]] else []);
  }

  /** The users matching the query, in collection order. */
  function MatchingUsers(users: seq<UserRecord>, q: UserQuery): seq<UserRecord> {
    Filter(users, (u: UserRecord) => MatchesQuery(u, q))
  }

  function IsFetchedStudent(users: seq<UserRecord>): ValuationRow -> bool {
    (row: ValuationRow) => exists k :: 0 <= k < |users| && users[k].id == row.studentId
  }

  /** The later snapshot's listing: build the query, fetch the matching users, then the
      valuations of those users, group them per student and enrich every user, keeping
      the users' order. */
  method GetUsersByFilters(f: UserFilters, users: seq<UserRecord>, valuations: seq<ValuationRow>, schools: seq<School>)
    returns (r: seq<UserWithValuations>)
    ensures BuildUserQuery(f).None? ==> r == []
    ensures BuildUserQuery(f).Some? ==>
              var fetched := MatchingUsers(users, BuildUserQuery(f).value);
              && |r| == |fetched|
              && forall k :: 0 <= k < |r| ==> r[k] == Enrich(fetched[k], valuations, schools)
  {
    var q := BuildUserQuery(f);
    if q.None? {
      return [];
    }
    var fetched := MatchingUsers(users, q.value);
    if |fetched| == 0 {
      return [];
    }
    var rows := Filter(valuations, IsFetchedStudent(fetched));
    var groups := GroupValuations(rows);
    r := EnrichAll(fetched, rows, groups, valuations, schools);
  }

  /** The enrichment loop over the fetched users, reading the grouped summaries. */
  method EnrichAll(fetched: seq<UserRecord>, rows: seq<ValuationRow>, groups: map<Id, seq<ValuationSummary>>,
                   valuations: seq<ValuationRow>, schools: seq<School>)
    returns (r: seq<UserWithValuations>)
    requires rows == Filter(valuations, IsFetchedStudent(fetched))
    requires forall sid :: sid in groups <==> exists i :: 0 <= i < |rows| && rows[i].studentId == sid
    requires forall sid :: sid in groups ==> groups[sid] == SummariesOf(rows, sid)
    ensures |r| == |fetched|
    ensures forall k :: 0 <= k < |r| ==> r[k] == Enrich(fetched[k], valuations, schools)
  {
    r := [];
    for k := 0 to |fetched|
      invariant |r| == k
      invariant forall j :: 0 <= j < k ==> r[j] == Enrich(fetched[j], valuations, schools)
    {
      var u := fetched[k];
      var mine := if u.id in groups then groups[u.id] else [];
      GroupedSummaries(valuations, fetched, k, groups);
      var enriched := UserWithValuations(u.id, u.role, u.name, u.identificationNumber, SchoolOf(schools, u.schoolId),
                                         u.gradesTaught.GetOr([]), mine);
      assert enriched == Enrich(u, valuations, schools);
      r := r + [enriched];
    }
  }

  /** Reading a fetched student's entry of the grouped map, with `[]` for a student
      without an entry, gives all of that student's summaries. */
  lemma GroupedSummaries(valuations: seq<ValuationRow>, fetched: seq<UserRecord>, k: nat, groups: map<Id, seq<ValuationSummary>>)
    requires k < |fetched|
    requires var rows := Filter(valuations, IsFetchedStudent(fetched));
      && (forall sid :: sid in groups <==> exists i :: 0 <= i < |rows| && rows[i].studentId == sid)
      && (forall sid :: sid in groups ==> groups[sid] == SummariesOf(rows, sid))
    ensures (if fetched[k].id in groups then groups[fetched[k].id] else []) == SummariesOf(valuations, fetched[k].id)
  {
    var rows := Filter(valuations, IsFetchedStudent(fetched));
    OwnRowsAllFetched(valuations, fetched, k);
    if fetched[k].id !in groups {
      NoValuationsNoSummaries(rows, fetched[k].id);
    }
  }

  /** Narrowing the valuations to the fetched students loses none of a fetched
      student's summaries. */
  lemma OwnRowsAllFetched(valuations: seq<ValuationRow>, fetched: seq<UserRecord>, k: nat)
    requires k < |fetched|
    ensures SummariesOf(Filter(valuations, IsFetchedStudent(fetched)), fetched[k].id) == SummariesOf(valuations, fetched[k].id)
  {
    forall i | 0 <= i < |valuations| && OfStudent(fetched[k].id)(valuations[i])
      ensures IsFetchedStudent(fetched)(valuations[i])
    {
      assert fetched[k].id == valuations[i].studentId;
    }
    FilterOfFilter(valuations, IsFetchedStudent(fetched), OfStudent(fetched[k].id));
  }

  lemma {:induction false} FilterOfFilter<T>(xs: seq<T>, p: T -> bool, q: T -> bool)
    requires forall k :: 0 <= k < |xs| && q(xs[k]) ==> p(xs[k])
    ensures Filter(Filter(xs, p), q) == Filter(xs, q)
    decreases |xs|
  {
    if |xs| > 0 {
      var init := xs[..|xs| - 1];
      FilterOfFilter(init, p, q);
      var last := xs[|xs| - 1];
      if p(last) {
        var fp := Filter(xs, p);
        assert fp == Filter(init, p) + [last];
        assert fp[..|fp| - 1] == Filter(init, p);
      } else {
        assert Filter(xs, p) == Filter(init, p);
      }
    }
  }
}
