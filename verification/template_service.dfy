/** Checklist templates: deriving a template's subjects by grouping the expected
    learnings of a period by subject, creating the template, and the tenant-scoped
    template queries. Both service snapshots group the same way; the later one differs
    only in what it returns after the insert. */
module TemplateService {
  import opened Wrappers
  import opened Records
  import opened Seqs

  // ---------------------------------------------------------------------------
  // The grouping, as functions
  // ---------------------------------------------------------------------------

  /** The learnings' subject ids without repeats, in order of first occurrence (the key
      order of a JavaScript Map filled while scanning the learnings). */
  function SubjectOrder(ls: seq<LearningRecord>): (order: seq<Id>)
    ensures forall sid :: sid in order <==> exists i :: 0 <= i < |ls| && ls[i].subjectId == sid
    ensures forall a, b :: 0 <= a < b < |order| ==> order[a] != order[b]
    decreases |ls|
  {
    if |ls| == 0 then []
    else
      var init := SubjectOrder(ls[..|ls| - 1]);
      assert forall i :: 0 <= i < |ls| - 1 ==> ls[..|ls| - 1][i] == ls[i];
      if ls[|ls| - 1].subjectId in init then init else init + [ls[|ls| - 1].subjectId]
  }

  function InSubject(subjectId: Id): LearningRecord -> bool {
    (l: LearningRecord) => l.subjectId == subjectId
  }

  /** The learnings of one subject, in fetch order. */
  function GroupOf(ls: seq<LearningRecord>, subjectId: Id): seq<LearningRecord> {
    Filter(ls, InSubject(subjectId))
  }

  function Ids(ls: seq<LearningRecord>): (r: seq<Id>)
    ensures |r| == |ls| && forall i :: 0 <= i < |ls| ==> r[i] == ls[i].id
  {
    seq(|ls|, i requires 0 <= i < |ls| => ls[i].id)
  }

  /** The template subjects derived from the fetched learnings: one group per distinct
      subject, in order of first occurrence, holding that subject's learning ids in
      fetch order. */
  function Derive(ls: seq<LearningRecord>): (r: seq<TemplateSubject>)
    ensures |r| == |SubjectOrder(ls)|
    ensures forall g :: 0 <= g < |r| ==> r[g].subjectId == SubjectOrder(ls)[g]
  {
    var order := SubjectOrder(ls);
    seq(|order|, g requires 0 <= g < |order| => TemplateSubject(order[g], Ids(GroupOf(ls, order[g]))))
  }

  // ---------------------------------------------------------------------------
  // Properties of the grouping
  // ---------------------------------------------------------------------------

  /** Every fetched learning lands in the group of its own subject. */
  lemma LearningInOwnGroup(ls: seq<LearningRecord>, i: nat)
    requires i < |ls|
    ensures exists g :: 0 <= g < |Derive(ls)| && Derive(ls)[g].subjectId == ls[i].subjectId
                        && ls[i].id in Derive(ls)[g].learnings
  {
    var order := SubjectOrder(ls);
    assert ls[i].subjectId in order;
    var g :| 0 <= g < |order| && order[g] == ls[i].subjectId;
    assert InSubject(order[g])(ls[i]);
    var group := GroupOf(ls, order[g]);
    var k :| 0 <= k < |group| && group[k] == ls[i];
    assert Derive(ls)[g].learnings[k] == ls[i].id;
  }

  /** With distinct learning ids (they are document ids), a learning lies only in the
      group of its own subject, so it lands in exactly one group. */
  lemma LearningOnlyInOwnGroup(ls: seq<LearningRecord>, i: nat, g: nat)
    requires forall a, b :: 0 <= a < b < |ls| ==> ls[a].id != ls[b].id
    requires i < |ls| && g < |Derive(ls)|
    requires ls[i].id in Derive(ls)[g].learnings
    ensures Derive(ls)[g].subjectId == ls[i].subjectId
  {
    var sid := SubjectOrder(ls)[g];
    var group := GroupOf(ls, sid);
    var k :| 0 <= k < |group| && group[k].id == ls[i].id;
    assert InSubject(sid)(group[k]);
    var j :| 0 <= j < |ls| && ls[j] == group[k];
  }

  /** No group is empty. */
  lemma NoEmptyGroup(ls: seq<LearningRecord>, g: nat)
    requires g < |Derive(ls)|
    ensures |Derive(ls)[g].learnings| > 0
  {
    var sid := SubjectOrder(ls)[g];
    assert sid in SubjectOrder(ls);
    var i :| 0 <= i < |ls| && ls[i].subjectId == sid;
    assert InSubject(sid)(ls[i]);
  }

  /** Within a group, learnings keep their fetch order. */
  lemma GroupKeepsFetchOrder(ls: seq<LearningRecord>, subjectId: Id)
    ensures IsSubsequence(GroupOf(ls, subjectId), ls)
  {
    FilterIsSubsequence(ls, InSubject(subjectId));
  }

  /** Groups are ordered by first occurrence: before any learning of a later group there
      is a learning of every earlier group. */
  lemma {:induction false} GroupsInFirstOccurrenceOrder(ls: seq<LearningRecord>, a: nat, b: nat, j: nat)
    requires a < b < |SubjectOrder(ls)|
    requires j < |ls| && ls[j].subjectId == SubjectOrder(ls)[b]
    ensures exists i :: 0 <= i < j && ls[i].subjectId == SubjectOrder(ls)[a]
    decreases |ls|
  {
    var init, last := ls[..|ls| - 1], ls[|ls| - 1];
    var before := SubjectOrder(init);
    assert forall i :: 0 <= i < |init| ==> init[i] == ls[i];
    if b < |before| {
      if j == |ls| - 1 {
        assert before[b] in before;
        var j' :| 0 <= j' < |init| && init[j'].subjectId == before[b];
        GroupsInFirstOccurrenceOrder(init, a, b, j');
      } else {
        GroupsInFirstOccurrenceOrder(init, a, b, j);
      }
    } else {
      assert before[a] in before;
      var i :| 0 <= i < |init| && init[i].subjectId == before[a];
      // the last learning opens group b, so no earlier learning belongs to it
      assert forall k :: 0 <= k < |init| ==> init[k].subjectId != last.subjectId;
    }
  }

  lemma {:induction false} DistinctCardinality(s: seq<Id>)
    requires forall a, b :: 0 <= a < b < |s| ==> s[a] != s[b]
    ensures |set x | x in s| == |s|
    decreases |s|
  {
    if |s| > 0 {
      var init := s[..|s| - 1];
      DistinctCardinality(init);
      assert (set x | x in s) == (set x | x in init) + {s[|s| - 1]};
    }
  }

  /** There are exactly as many groups as distinct subject ids among the learnings. */
  lemma GroupCountIsDistinctSubjects(ls: seq<LearningRecord>)
    ensures |Derive(ls)| == |set i | 0 <= i < |ls| :: ls[i].subjectId|
  {
    var order := SubjectOrder(ls);
    DistinctCardinality(order);
    assert (set x | x in order) == (set i | 0 <= i < |ls| :: ls[i].subjectId);
  }

  // ---------------------------------------------------------------------------
  // The grouping loop of the service
  // ---------------------------------------------------------------------------

  /** The scan that fills an insertion-ordered map from subject id to learning ids: the
      key order is the order of first occurrence and each key holds its learnings. */
  method CollectGroups(ls: seq<LearningRecord>) returns (order: seq<Id>, groups: map<Id, seq<Id>>)
    ensures order == SubjectOrder(ls)
    ensures forall sid :: sid in groups <==> sid in order
    ensures forall sid :: sid in groups ==> groups[sid] == Ids(GroupOf(ls, sid))
  {
    order, groups := [], map[];
    for i := 0 to |ls|
      invariant order == SubjectOrder(ls[..i])
      invariant forall sid :: sid in groups <==> sid in order
      invariant forall sid :: sid in groups ==> groups[sid] == Ids(GroupOf(ls[..i], sid))
    {
      var sid := ls[i].subjectId;
      assert ls[..i + 1][..i] == ls[..i];
      if sid !in groups {
        order := order + [sid];
        UnseenSubjectHasNoGroup(ls[..i], sid);
        groups := groups[sid := []];
      }
      groups := groups[sid := groups[sid] + [ls[i].id]];
      forall s | s in groups
        ensures groups[s] == Ids(GroupOf(ls[..i + 1], s))
      {
        GroupOfStep(ls, i, s);
      }
    }
    assert ls[..|ls|] == ls;
  }

  /** The grouping of the service: collect the groups, then turn the map's entries into
      the template's subject array. */
  method GroupBySubject(ls: seq<LearningRecord>) returns (subjects: seq<TemplateSubject>)
    ensures subjects == Derive(ls)
  {
    var order, groups := CollectGroups(ls);
    ghost var derived := Derive(ls);
    subjects := [];
    for g := 0 to |order|
      invariant subjects == derived[..g]
    {
      assert order[g] in order;
      assert derived[g] == TemplateSubject(order[g], groups[order[g]]);
      assert derived[..g + 1] == derived[..g] + [derived[g]];
      subjects := subjects + [TemplateSubject(order[g], groups[order[g]])];
    }
    assert derived[..|order|] == derived;
  }

  lemma UnseenSubjectHasNoGroup(ls: seq<LearningRecord>, subjectId: Id)
    requires subjectId !in SubjectOrder(ls)
    ensures GroupOf(ls, subjectId) == []
  {
    FilterKeepsNone(ls, InSubject(subjectId));
  }

  lemma GroupOfStep(ls: seq<LearningRecord>, i: nat, subjectId: Id)
    requires i < |ls|
    ensures Ids(GroupOf(ls[..i + 1], subjectId))
         == Ids(GroupOf(ls[..i], subjectId)) + (if ls[i].subjectId == subjectId then [ls[i].id] else [])
  {
    assert ls[..i + 1][..i] == ls[..i];
    assert GroupOf(ls[..i + 1], subjectId)
        == GroupOf(ls[..i], subjectId) + (if InSubject(subjectId)(ls[i]) then [ls[i]] else []);
  }

  // ---------------------------------------------------------------------------
  // Queries
  // ---------------------------------------------------------------------------

  /** The template query: always scoped by teacher and institution, and by id only when
      a non-empty template id is given. */
  datatype TemplateQuery = TemplateQuery(teacherId: Id, institutionId: Id, id: Option<Id>)

  function BuildTemplateQuery(teacherId: Id, institutionId: Id, templateId: Option<string>): (q: TemplateQuery)
    ensures q.teacherId == teacherId && q.institutionId == institutionId
    ensures q.id.Some? <==> Present(templateId)
    ensures q.id.Some? ==> q.id == templateId
  {
    TemplateQuery(teacherId, institutionId, if Present(templateId) then templateId else None)
  }

  predicate MatchesQuery(t: Template, q: TemplateQuery) {
    t.teacherId == q.teacherId && t.institutionId == q.institutionId && (q.id.Some? ==> t.id == q.id.value)
  }

  /** What a teacher's session lists about each of their templates. */
  datatype SessionTemplate = SessionTemplate(id: Id, name: string, periodId: Id)

  /** Learnings of the period within the institution, in collection order. */
  function LearningsInPeriod(learnings: seq<LearningRecord>, periodId: Id, institutionId: Id): (r: seq<LearningRecord>)
    ensures forall k :: 0 <= k < |r| ==> r[k].periodId == periodId && r[k].institutionId == institutionId
    ensures forall k :: 0 <= k < |learnings| && learnings[k].periodId == periodId && learnings[k].institutionId == institutionId ==>
              learnings[k] in r
    ensures IsSubsequence(r, learnings)
  {
    var p := (l: LearningRecord) => l.periodId == periodId && l.institutionId == institutionId;
    FilterIsSubsequence(learnings, p);
    Filter(learnings, p)
  }

  // ---------------------------------------------------------------------------
  // The template collection
  // ---------------------------------------------------------------------------

  class TemplateStore {
    var templates: seq<Template>
    var learnings: seq<LearningRecord>

    constructor (learnings: seq<LearningRecord>)
      ensures this.templates == [] && this.learnings == learnings
    {
      this.templates := [];
      this.learnings := learnings;
    }

    /** Templates of the teacher within the institution, narrowed to one id when given,
        in collection order. */
    function GetChecklistTemplatesByTeacherId(teacherId: Id, institutionId: Id, templateId: Option<string>): (r: seq<Template>)
      reads this
      ensures forall k :: 0 <= k < |r| ==> r[k].teacherId == teacherId && r[k].institutionId == institutionId
      ensures Present(templateId) ==> forall k :: 0 <= k < |r| ==> r[k].id == templateId.value
      ensures forall k :: 0 <= k < |templates| ==>
                (MatchesQuery(templates[k], BuildTemplateQuery(teacherId, institutionId, templateId)) <==> templates[k] in r)
      ensures IsSubsequence(r, templates)
    {
      var q := BuildTemplateQuery(teacherId, institutionId, templateId);
      var p := (t: Template) => MatchesQuery(t, q);
      FilterIsSubsequence(templates, p);
      Filter(templates, p)
    }

    /** Id, name and period of every template of the teacher within the institution. */
    function GetChecklistTemplatesForSession(teacherId: Id, institutionId: Id): (r: seq<SessionTemplate>)
      reads this
      ensures var mine := GetChecklistTemplatesByTeacherId(teacherId, institutionId, None);
        |r| == |mine| && forall k :: 0 <= k < |r| ==> r[k] == SessionTemplate(mine[k].id, mine[k].name, mine[k].periodId)
    {
      var mine := GetChecklistTemplatesByTeacherId(teacherId, institutionId, None);
      seq(|mine|, k requires 0 <= k < |mine| => SessionTemplate(mine[k].id, mine[k].name, mine[k].periodId))
    }

    /** The earlier lookup by id, also scoped by institution: the first match or nothing. */
    function GetChecklistTemplateById(templateId: Id, institutionId: Id): (r: Option<Template>)
      reads this
      ensures r.Some? ==> r.value in templates && r.value.id == templateId && r.value.institutionId == institutionId
      ensures r.None? <==> forall k :: 0 <= k < |templates| ==> templates[k].id != templateId || templates[k].institutionId != institutionId
    {
      var hits := Filter(templates, (t: Template) => t.id == templateId && t.institutionId == institutionId);
      if |hits| == 0 then None else Some(hits[0])
    }

    /** Create a template for the period from its learnings in the institution: with no
        learnings it fails and nothing is stored; otherwise the derived subjects are
        stored under `newId` with the given name, period, institution and teacher. */
    method CreateChecklistTemplate(name: string, periodId: Id, institutionId: Id, teacherId: Id, newId: Id)
      returns (r: Result<Template, Failure>)
      modifies this
      ensures learnings == old(learnings)
      ensures |LearningsInPeriod(learnings, periodId, institutionId)| == 0 ==>
                r == Err(EmptyPeriod(periodId)) && templates == old(templates)
      ensures |LearningsInPeriod(learnings, periodId, institutionId)| > 0 ==>
                && r == Ok(Template(newId, name, institutionId, periodId, teacherId,
                                    Derive(LearningsInPeriod(learnings, periodId, institutionId))))
                && templates == old(templates) + [r.value]
    {
      var fetched := LearningsInPeriod(learnings, periodId, institutionId);
      if |fetched| == 0 {
        return Err(EmptyPeriod(periodId));
      }
      var subjects := GroupBySubject(fetched);
      var created := Template(newId, name, institutionId, periodId, teacherId, subjects);
      templates := templates + [created];
      r := Ok(created);
    }
  }

  /** A created template never has an empty subject, and holds every learning of the
      period in the group of its subject. */
  lemma CreatedTemplateCoversPeriod(learnings: seq<LearningRecord>, periodId: Id, institutionId: Id, i: nat)
    requires i < |learnings| && learnings[i].periodId == periodId && learnings[i].institutionId == institutionId
    ensures var subjects := Derive(LearningsInPeriod(learnings, periodId, institutionId));
      && (forall g :: 0 <= g < |subjects| ==> |subjects[g].learnings| > 0)
      && exists g :: 0 <= g < |subjects| && subjects[g].subjectId == learnings[i].subjectId
                     && learnings[i].id in subjects[g].learnings
  {
    var fetched := LearningsInPeriod(learnings, periodId, institutionId);
    var p := (l: LearningRecord) => l.periodId == periodId && l.institutionId == institutionId;
    assert fetched == Filter(learnings, p);
    assert p(learnings[i]);
    var k :| 0 <= k < |fetched| && fetched[k] == learnings[i];
    LearningInOwnGroup(fetched, k);
    forall g | 0 <= g < |Derive(fetched)|
      ensures |Derive(fetched)[g].learnings| > 0
    {
      NoEmptyGroup(fetched, g);
    }
  }
}
