/** The request schemas of the valuation routes: the ObjectId format, the shape of an
    update body, and the id parameters of every route. A request body is modelled as the
    JSON fields the schemas look at; a field may be missing, null or a string. */
module RequestValidation {
  import opened Wrappers
  import opened Records

  const ObjectIdLength: nat := 24

  predicate IsHexDigit(c: char) {
    ('0' <= c <= '9') || ('a' <= c <= 'f') || ('A' <= c <= 'F')
  }

  /** The characters of the pattern `[0-9a-fA-F]`. */
  const HexAlphabet: string := "0123456789abcdefABCDEF"

  /** An ObjectId as the routes accept it: exactly 24 hexadecimal digits, either case. */
  predicate IsObjectId(s: string)
    ensures IsObjectId(s) <==> |s| == 24 && forall k :: 0 <= k < |s| ==> s[k] in HexAlphabet
  {
    |s| == ObjectIdLength && forall k :: 0 <= k < |s| ==> IsHexDigit(s[k])
  }

  /** A scalar JSON field as the schemas see it. */
  datatype RawField = Missing | Null | Text(text: string)

  datatype RawLearningUpdate = RawLearningUpdate(learningId: RawField, mark: RawField)
  datatype RawSubjectUpdate = RawSubjectUpdate(subjectId: RawField, learnings: Option<seq<RawLearningUpdate>>)

  /** An id field: present, a string and an ObjectId. */
  function ValidateId(f: RawField): (r: Option<Id>)
    ensures r.Some? <==> f.Text? && IsObjectId(f.text)
    ensures r.Some? ==> r.value == f.text
  {
    if f.Text? && IsObjectId(f.text) then Some(f.text) else None
  }

  /** A mark field: one of the three mark labels, or an explicit null (absent is refused).
      The outer option is acceptance, the inner one the mark or null. */
  function ValidateMark(f: RawField): (r: Option<Option<Mark>>)
    ensures r.Some? <==> f.Null? || (f.Text? && ParseMark(f.text).Some?)
    ensures r == Some(None) <==> f.Null?
  {
    match f
    case Missing => None
    case Null => Some(None)
    case Text(s) => if ParseMark(s).Some? then Some(ParseMark(s)) else None
  }

  /** A learning entry is accepted iff its id is an ObjectId and its mark a mark label or
      null; it then carries that id and that mark. */
  function ValidateLearning(raw: RawLearningUpdate): (r: Option<LearningUpdate>)
    ensures r.Some? <==> && raw.learningId.Text? && IsObjectId(raw.learningId.text)
                         && (raw.mark.Null? || (raw.mark.Text? && ParseMark(raw.mark.text).Some?))
    ensures r.Some? ==> && r.value.learningId == raw.learningId.text
                        && (raw.mark.Null? ==> r.value.mark.None?)
                        && (raw.mark.Text? ==> r.value.mark == ParseMark(raw.mark.text))
  {
    match (ValidateId(raw.learningId), ValidateMark(raw.mark))
    case (Some(id), Some(mark)) => Some(LearningUpdate(id, mark))
    case _ => None
  }

  function ValidateLearnings(raws: seq<RawLearningUpdate>): (r: Option<seq<LearningUpdate>>)
    ensures r.Some? <==> forall k :: 0 <= k < |raws| ==> ValidateLearning(raws[k]).Some?
    ensures r.Some? ==> |r.value| == |raws| && forall k :: 0 <= k < |raws| ==> Some(r.value[k]) == ValidateLearning(raws[k])
  {
    if |raws| == 0 then Some([])
    else match (ValidateLearnings(raws[..|raws| - 1]), ValidateLearning(raws[|raws| - 1]))
      case (Some(init), Some(last)) => Some(init + [last])
      case _ => None
  }

  /** A subject entry is accepted iff its id is an ObjectId and it has a list of learning
      entries, all accepted; it then carries that id and those learnings in order. */
  function ValidateSubject(raw: RawSubjectUpdate): (r: Option<SubjectUpdate>)
    ensures r.Some? <==> && raw.subjectId.Text? && IsObjectId(raw.subjectId.text) && raw.learnings.Some?
                         && forall k :: 0 <= k < |raw.learnings.value| ==> ValidateLearning(raw.learnings.value[k]).Some?
    ensures r.Some? ==> && r.value.subjectId == raw.subjectId.text
                        && |r.value.learnings| == |raw.learnings.value|
                        && forall k :: 0 <= k < |raw.learnings.value| ==> Some(r.value.learnings[k]) == ValidateLearning(raw.learnings.value[k])
  {
    match (ValidateId(raw.subjectId), raw.learnings)
    case (Some(id), Some(ls)) =>
      (match ValidateLearnings(ls)
       case Some(updates) => Some(SubjectUpdate(id, updates))
       case None => None)
    case _ => None
  }

  /** The update body's schema: a list of subjects, each with an ObjectId and a list of
      learnings, each with an ObjectId and a mark or null. One bad entry refuses all. */
  function ValidateUpdateBody(raws: seq<RawSubjectUpdate>): (r: Option<UpdatePayload>)
    ensures r.Some? <==> forall k :: 0 <= k < |raws| ==> ValidateSubject(raws[k]).Some?
    ensures r.Some? ==> |r.value| == |raws| && forall k :: 0 <= k < |raws| ==> Some(r.value[k]) == ValidateSubject(raws[k])
  {
    if |raws| == 0 then Some([])
    else match (ValidateUpdateBody(raws[..|raws| - 1]), ValidateSubject(raws[|raws| - 1]))
      case (Some(init), Some(last)) => Some(init + [last])
      case _ => None
  }

  // ---------------------------------------------------------------------------
  // Encoding a payload as JSON fields, and the round trip
  // ---------------------------------------------------------------------------

  function EncodeMark(m: Option<Mark>): RawField {
    match m
    case None => Null
    case Some(mark) => Text(MarkLabel(mark))
  }

  function EncodeLearning(u: LearningUpdate): RawLearningUpdate {
    RawLearningUpdate(Text(u.learningId), EncodeMark(u.mark))
  }

  function EncodeSubject(s: SubjectUpdate): RawSubjectUpdate {
    RawSubjectUpdate(Text(s.subjectId), Some(seq(|s.learnings|, k requires 0 <= k < |s.learnings| => EncodeLearning(s.learnings[k]))))
  }

  function EncodeBody(p: UpdatePayload): (r: seq<RawSubjectUpdate>)
    ensures |r| == |p| && forall k :: 0 <= k < |p| ==> r[k] == EncodeSubject(p[k])
  {
    seq(|p|, k requires 0 <= k < |p| => EncodeSubject(p[k]))
  }

  /** Every id of the payload is an ObjectId. */
  ghost predicate WellFormed(p: UpdatePayload) {
    forall k :: 0 <= k < |p| ==>
      IsObjectId(p[k].subjectId) && forall j :: 0 <= j < |p[k].learnings| ==> IsObjectId(p[k].learnings[j].learningId)
  }

  lemma MarkRoundTrip(m: Option<Mark>)
    ensures ValidateMark(EncodeMark(m)) == Some(m)
  {
  }

  /** A payload whose ids are ObjectIds passes the schema unchanged. */
  lemma {:induction false} UpdateBodyRoundTrip(p: UpdatePayload)
    requires WellFormed(p)
    ensures ValidateUpdateBody(EncodeBody(p)) == Some(p)
  {
    var raws := EncodeBody(p);
    var r := ValidateUpdateBody(raws);
    forall k | 0 <= k < |p|
      ensures ValidateSubject(raws[k]) == Some(p[k])
    {
      var ls := p[k].learnings;
      var encoded := raws[k].learnings.value;
      forall j | 0 <= j < |ls|
        ensures ValidateLearning(encoded[j]) == Some(ls[j])
      {
        MarkRoundTrip(ls[j].mark);
      }
      assert ValidateLearnings(encoded).value == ls;
    }
    assert r.value == p;
  }

  /** Conversely, everything the schema accepts is the encoding of what it yields, so the
      schema loses nothing but the distinction between absent and null it refuses. */
  lemma {:induction false} AcceptedBodyIsEncoding(raws: seq<RawSubjectUpdate>)
    requires ValidateUpdateBody(raws).Some?
    ensures WellFormed(ValidateUpdateBody(raws).value)
    ensures EncodeBody(ValidateUpdateBody(raws).value) == raws
  {
    var p := ValidateUpdateBody(raws).value;
    forall k | 0 <= k < |raws|
      ensures EncodeSubject(p[k]) == raws[k]
      ensures IsObjectId(p[k].subjectId) && forall j :: 0 <= j < |p[k].learnings| ==> IsObjectId(p[k].learnings[j].learningId)
    {
      var ls := raws[k].learnings.value;
      var us := ValidateLearnings(ls).value;
      forall j | 0 <= j < |ls|
        ensures EncodeLearning(us[j]) == ls[j] && IsObjectId(us[j].learningId)
      {
        var m := ls[j].mark;
        if m.Text? {
          assert MarkLabel(ParseMark(m.text).value) == m.text;
        }
      }
      assert EncodeSubject(p[k]).learnings.value == ls;
    }
  }

  // ---------------------------------------------------------------------------
  // Route parameters
  // ---------------------------------------------------------------------------

  datatype Route = InitializeValuation | GetValuationById | GetValuationsByStudent | UpdateValuation | DeleteValuation

  /** The id parameters each route's schema requires. */
  function RouteParams(route: Route): (r: seq<string>)
    ensures "valuationId" in r <==> route == GetValuationById || route == UpdateValuation || route == DeleteValuation
    ensures "studentId" in r <==> route == InitializeValuation || route == GetValuationsByStudent
    ensures "periodId" in r <==> route == InitializeValuation
    ensures forall k :: 0 <= k < |r| ==> r[k] == "valuationId" || r[k] == "studentId" || r[k] == "periodId"
  {
    match route
    case InitializeValuation => ["studentId", "periodId"]
    case GetValuationById => ["valuationId"]
    case GetValuationsByStudent => ["studentId"]
    case UpdateValuation => ["valuationId"]
    case DeleteValuation => ["valuationId"]
  }

  /** A request's path parameters pass iff every parameter the route names is present
      and is an ObjectId. */
  function ValidateParams(route: Route, params: map<string, string>): (r: bool)
    ensures r <==> forall k :: 0 <= k < |RouteParams(route)| ==>
                     RouteParams(route)[k] in params && IsObjectId(params[RouteParams(route)[k]])
  {
    AllObjectIds(RouteParams(route), params)
  }

  function AllObjectIds(names: seq<string>, params: map<string, string>): (r: bool)
    ensures r <==> forall k :: 0 <= k < |names| ==> names[k] in params && IsObjectId(params[names[k]])
  {
    if |names| == 0 then true
    else names[0] in params && IsObjectId(params[names[0]]) && AllObjectIds(names[1..], params)
  }

  /** An update request passes iff its valuation id and its body both pass. */
  function ValidateUpdateRequest(params: map<string, string>, body: seq<RawSubjectUpdate>): (r: Option<(Id, UpdatePayload)>)
    ensures r.Some? <==> ValidateParams(UpdateValuation, params) && ValidateUpdateBody(body).Some?
    ensures r.Some? ==> IsObjectId(r.value.0) && r.value.0 == params["valuationId"]
                         && ValidateUpdateBody(body) == Some(r.value.1)
  {
    if ValidateParams(UpdateValuation, params) && ValidateUpdateBody(body).Some? then
      Some((params["valuationId"], ValidateUpdateBody(body).value))
    else None
  }
}
