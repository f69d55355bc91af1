/**
 * The teacher's side of the server: the review queue of a course, posting feedback
 * (with time-stamped markers) on an entry or an artifact, and listing the feedback
 * left on an entry.
 */
module FeedbackRoutes {
  import opened Common
  import opened Validation
  import opened Store
  import opened Access
  import EntryRoutes
  import ArtifactRoutes
  import LocalModels

  const TargetTypes: seq<string> := ["entry", "artifact"]
  const FeedbackStatuses: seq<string> := ["ok", "needs_revision", "next_goal"]
  const FeedbackIdPrefix: string := "fb_"
  const MarkerIdPrefix: string := "mk_"

  // ---------------------------------------------------------------------------
  // Review queue
  // ---------------------------------------------------------------------------

  /** The course's live submitted entries, for a caller who is a teacher of that course. */
  function ReviewQueue(t: Tables, user: AuthUser, courseId: string): (r: Result<set<Entry>, ApiError>)
    ensures (user.id, courseId) !in t.memberships ==> r == Err(CourseAccessDenied)
    ensures (user.id, courseId) in t.memberships && t.memberships[(user.id, courseId)] != "teacher" ==>
      r == Err(OnlyTeachers)
    ensures r.Ok? <==> (user.id, courseId) in t.memberships && t.memberships[(user.id, courseId)] == "teacher"
    ensures r.Ok? ==> forall e :: e in r.value <==>
      e in t.entries.Values && e.courseId == courseId && e.status == "submitted" && e.deletedAt.None?
  {
    var role :- CourseRole(t, user.id, courseId);
    if role != "teacher" then Err(OnlyTeachers)
    else Ok(set e | e in t.entries.Values && e.courseId == courseId && e.status == "submitted" && e.deletedAt.None?)
  }

  /** An entry its student has just submitted is in the review queue of every teacher of its course. */
  lemma SubmittedEntryIsQueued(t: Tables, student: AuthUser, entryId: string, teacher: AuthUser)
    requires EntryRoutes.Submitted(t, student, entryId).Ok?
    requires var courseId := t.entries[entryId].courseId;
      (teacher.id, courseId) in t.memberships && t.memberships[(teacher.id, courseId)] == "teacher"
    ensures var e := EntryRoutes.Submitted(t, student, entryId).value;
      var t' := t.(entries := t.entries[entryId := e]);
      ReviewQueue(t', teacher, e.courseId).Ok? && e in ReviewQueue(t', teacher, e.courseId).value
  {
    var e := EntryRoutes.Submitted(t, student, entryId).value;
    var t' := t.(entries := t.entries[entryId := e]);
    assert t'.entries[entryId] == e;
  }

  // ---------------------------------------------------------------------------
  // Posting feedback
  // ---------------------------------------------------------------------------

  /** A validated marker of the request: a non-negative time in seconds and its text. */
  datatype MarkerInput = MarkerInput(timeSeconds: int, text: string)

  /** A validated feedback request. */
  datatype FeedbackInput = FeedbackInput(
    targetType: string,
    targetId: string,
    status: string,
    commentsText: string,
    markers: seq<MarkerInput>)

  /** The body's `markers` when it is an array, otherwise no markers. */
  function MarkerItems(body: JsValue): (r: seq<JsValue>)
    ensures Get(body, "markers").Arr? ==> r == Get(body, "markers").items
    ensures !Get(body, "markers").Arr? ==> r == []
  {
    if Get(body, "markers").Arr? then Get(body, "markers").items else []
  }

  /** A marker passes when its time is a non-negative number and its text a string. */
  predicate ValidMarker(item: JsValue) {
    RequireDuration(Get(item, "timeSeconds")).Ok? && RequireStringField(Get(item, "text")).Ok?
  }

  /** The markers checked one after another; the first invalid one fails the request. */
  function ReadMarkers(items: seq<JsValue>): (r: Result<seq<MarkerInput>, ApiError>)
    ensures r.Ok? <==> forall i :: 0 <= i < |items| ==> ValidMarker(items[i])
    ensures r.Ok? ==> |r.value| == |items| && forall i :: 0 <= i < |items| ==>
      r.value[i].timeSeconds >= 0 &&
      Get(items[i], "timeSeconds") == Num(r.value[i].timeSeconds) && Get(items[i], "text") == Str(r.value[i].text)
    ensures r.Err? ==> r.error == ValidationError
  {
    if |items| == 0 then Ok([])
    else
      var time :- RequireDuration(Get(items[0], "timeSeconds"));
      var text :- RequireStringField(Get(items[0], "text"));
      var rest :- ReadMarkers(items[1..]);
      assert forall i :: 0 < i < |items| ==> items[i] == items[1..][i - 1];
      Ok([MarkerInput(time, text)] + rest)
  }

  /**
   * The request checks, in order: only callers whose global role is teacher, then the
   * target type, target id, status and comments, then every marker.
   */
  function FeedbackRequest(user: AuthUser, body: JsValue): (r: Result<FeedbackInput, ApiError>)
    ensures user.role != "teacher" ==> r == Err(OnlyTeachers)
    ensures r.Ok? <==>
      user.role == "teacher" &&
      Get(body, "targetType").Str? && Get(body, "targetType").s in TargetTypes &&
      Get(body, "targetId").Str? &&
      Get(body, "status").Str? && Get(body, "status").s in FeedbackStatuses &&
      Get(body, "commentsText").Str? &&
      forall i :: 0 <= i < |MarkerItems(body)| ==> ValidMarker(MarkerItems(body)[i])
    ensures r.Ok? ==>
      Get(body, "targetType") == Str(r.value.targetType) && Get(body, "targetId") == Str(r.value.targetId) &&
      Get(body, "status") == Str(r.value.status) && Get(body, "commentsText") == Str(r.value.commentsText) &&
      ReadMarkers(MarkerItems(body)) == Ok(r.value.markers)
    ensures r.Err? && user.role == "teacher" ==> r.error == ValidationError
  {
    if user.role != "teacher" then Err(OnlyTeachers)
    else
      var targetTypeField :- RequireField(Get(body, "targetType"));
      var targetType :- RequireEnum(targetTypeField, TargetTypes);
      var targetId :- RequireStringField(Get(body, "targetId"));
      var statusField :- RequireField(Get(body, "status"));
      var status :- RequireEnum(statusField, FeedbackStatuses);
      var commentsText :- RequireStringField(Get(body, "commentsText"));
      var markers :- ReadMarkers(MarkerItems(body));
      Ok(FeedbackInput(targetType, targetId, status, commentsText, markers))
  }

  /**
   * The target must exist and the caller must be a member, in any role, of its
   * course. An entry target is found whether or not it is soft-deleted; an artifact
   * whose entry is gone fails as an internal error.
   */
  function TargetCourse(t: Tables, user: AuthUser, targetType: string, targetId: string)
    : (r: Result<string, ApiError>)
    requires targetType in TargetTypes
    ensures targetType == "entry" && targetId !in t.entries ==> r == Err(EntryNotFound)
    ensures targetType == "artifact" && targetId !in t.artifacts ==> r == Err(ArtifactRoutes.ArtifactNotFound)
    ensures targetType == "artifact" && targetId in t.artifacts && t.artifacts[targetId].entryId !in t.entries ==>
      r == Err(InternalError)
    ensures r.Ok? <==>
      (targetType == "entry" && targetId in t.entries &&
       (user.id, t.entries[targetId].courseId) in t.memberships) ||
      (targetType == "artifact" && targetId in t.artifacts && t.artifacts[targetId].entryId in t.entries &&
       (user.id, t.entries[t.artifacts[targetId].entryId].courseId) in t.memberships)
    ensures r.Ok? ==> (targetType == "entry" ==> r.value == t.entries[targetId].courseId)
    ensures r.Ok? ==> (targetType == "artifact" ==> r.value == t.entries[t.artifacts[targetId].entryId].courseId)
    ensures r.Err? ==>
      r.error in {EntryNotFound, ArtifactRoutes.ArtifactNotFound, InternalError, CourseAccessDenied}
  {
    if targetType == "entry" then
      if targetId !in t.entries then Err(EntryNotFound)
      else
        var courseId := t.entries[targetId].courseId;
        var _ :- CourseRole(t, user.id, courseId);
        Ok(courseId)
    else
      if targetId !in t.artifacts then Err(ArtifactRoutes.ArtifactNotFound)
      else if t.artifacts[targetId].entryId !in t.entries then Err(InternalError)
      else
        var courseId := t.entries[t.artifacts[targetId].entryId].courseId;
        var _ :- CourseRole(t, user.id, courseId);
        Ok(courseId)
  }

  /** The created feedback row and its markers, as the route answers them. */
  datatype Posted = Posted(feedback: Feedback, markers: seq<Marker>)

  /** The marker rows created for the request's markers, with generated ids. */
  function MarkerRows(inputs: seq<MarkerInput>, feedbackId: string, markerNonce: nat -> string): (r: seq<Marker>)
    ensures |r| == |inputs|
    ensures forall i :: 0 <= i < |r| ==>
      r[i] == Marker(MarkerIdPrefix + markerNonce(i), feedbackId, inputs[i].timeSeconds, inputs[i].text)
  {
    seq(|inputs|, i requires 0 <= i < |inputs| => Marker(MarkerIdPrefix + markerNonce(i), feedbackId,
                                                          inputs[i].timeSeconds, inputs[i].text))
  }

  /**
   * `POST /feedback` on a snapshot: the request checks, then the target check, then
   * the insert, which fails as an internal error when a generated id is already
   * taken, two markers draw the same id, or the caller has no user row.
   */
  function Posting(t: Tables, user: AuthUser, body: JsValue, feedbackNonce: string, markerNonce: nat -> string)
    : (r: Result<Posted, ApiError>)
    ensures FeedbackRequest(user, body).Err? ==> r == Err(FeedbackRequest(user, body).error)
    ensures r.Ok? ==> r.value.feedback.teacherId == user.id && r.value.feedback.id !in t.feedback
  {
    var input :- FeedbackRequest(user, body);
    var _ :- TargetCourse(t, user, input.targetType, input.targetId);
    var feedbackId := FeedbackIdPrefix + feedbackNonce;
    var markers := MarkerRows(input.markers, feedbackId, markerNonce);
    if feedbackId in t.feedback || user.id !in t.users || !DistinctIds(markers) ||
       exists i :: 0 <= i < |markers| && markers[i].id in t.markers
    then Err(InternalError)
    else
      Ok(Posted(Feedback(feedbackId, input.targetType, input.targetId, user.id, input.status, input.commentsText),
                markers))
  }

  /**
   * What a post answers: the request's error, else the target's error, else an
   * internal error exactly when the insert would break a key; otherwise the feedback
   * row of the caller on an existing target, carrying the body's fields, with one
   * fresh marker per requested marker.
   */
  lemma PostingOutcome(t: Tables, user: AuthUser, body: JsValue, feedbackNonce: string, markerNonce: nat -> string)
    ensures var r := Posting(t, user, body, feedbackNonce, markerNonce);
      FeedbackRequest(user, body).Err? ==> r == Err(FeedbackRequest(user, body).error)
    ensures var r := Posting(t, user, body, feedbackNonce, markerNonce);
      (FeedbackRequest(user, body).Ok? &&
       var input := FeedbackRequest(user, body).value;
       TargetCourse(t, user, input.targetType, input.targetId).Err?) ==>
      r == Err(TargetCourse(t, user, FeedbackRequest(user, body).value.targetType,
                            FeedbackRequest(user, body).value.targetId).error)
    ensures var r := Posting(t, user, body, feedbackNonce, markerNonce);
      (FeedbackRequest(user, body).Ok? &&
       var input := FeedbackRequest(user, body).value;
       TargetCourse(t, user, input.targetType, input.targetId).Ok?) ==>
      var ms := MarkerRows(FeedbackRequest(user, body).value.markers, FeedbackIdPrefix + feedbackNonce, markerNonce);
      (r.Ok? <==>
         FeedbackIdPrefix + feedbackNonce !in t.feedback && user.id in t.users && DistinctIds(ms) &&
         forall i :: 0 <= i < |ms| ==> ms[i].id !in t.markers) &&
      (r.Err? ==> r.error == InternalError)
    ensures var r := Posting(t, user, body, feedbackNonce, markerNonce);
      r.Ok? ==>
      var input := FeedbackRequest(user, body).value;
      var f := r.value.feedback;
      FeedbackRequest(user, body).Ok? &&
      TargetCourse(t, user, input.targetType, input.targetId).Ok? &&
      f == Feedback(FeedbackIdPrefix + feedbackNonce, input.targetType, input.targetId, user.id, input.status,
                    input.commentsText) &&
      f.id !in t.feedback && user.id in t.users && TargetExists(f, t.entries, t.artifacts) &&
      |r.value.markers| == |input.markers| && DistinctIds(r.value.markers) &&
      forall i :: 0 <= i < |r.value.markers| ==>
        r.value.markers[i].id !in t.markers && r.value.markers[i].feedbackId == f.id &&
        r.value.markers[i].timeSeconds == input.markers[i].timeSeconds &&
        r.value.markers[i].text == input.markers[i].text
  {
  }

  /** The tables after a successful post: the feedback row and its markers added. */
  function AfterPost(t: Tables, p: Posted): Tables {
    t.(feedback := t.feedback[p.feedback.id := p.feedback], markers := AddMarkers(t.markers, p.markers))
  }

  /** A successful post keeps every key guarantee. */
  lemma PostKeepsIntegrity(t: Tables, user: AuthUser, body: JsValue, feedbackNonce: string, markerNonce: nat -> string)
    requires Integrity(t)
    requires Posting(t, user, body, feedbackNonce, markerNonce).Ok?
    ensures Integrity(AfterPost(t, Posting(t, user, body, feedbackNonce, markerNonce).value))
  {
    PostingOutcome(t, user, body, feedbackNonce, markerNonce);
    var p := Posting(t, user, body, feedbackNonce, markerNonce).value;
    PutFeedbackKeepsIntegrity(t, p.feedback, p.markers);
  }

  /** After a successful post the feedback row and each created marker are stored under their ids. */
  lemma PostStoresRows(t: Tables, user: AuthUser, body: JsValue, feedbackNonce: string, markerNonce: nat -> string)
    requires Posting(t, user, body, feedbackNonce, markerNonce).Ok?
    ensures var p := Posting(t, user, body, feedbackNonce, markerNonce).value;
      AfterPost(t, p).feedback[p.feedback.id] == p.feedback &&
      forall i :: 0 <= i < |p.markers| ==>
        p.markers[i].id in AfterPost(t, p).markers && AfterPost(t, p).markers[p.markers[i].id] == p.markers[i]
  {
    PostingOutcome(t, user, body, feedbackNonce, markerNonce);
    var p := Posting(t, user, body, feedbackNonce, markerNonce).value;
    AddMarkersCreates(t.markers, p.markers);
  }

  /**
   * `POST /feedback`: writes the feedback row and its markers in one insert, or
   * nothing when any check or the insert fails.
   */
  method PostFeedback(db: Database, user: AuthUser, body: JsValue, feedbackNonce: string, markerNonce: nat -> string)
    returns (r: Result<Posted, ApiError>)
    requires db.Valid()
    modifies db
    ensures r == Posting(old(db.Snapshot()), user, body, feedbackNonce, markerNonce)
    ensures r.Ok? ==> db.Snapshot() == AfterPost(old(db.Snapshot()), r.value)
    ensures r.Err? ==> db.Snapshot() == old(db.Snapshot())
    ensures db.Valid()
  {
    var t := db.Snapshot();
    r := Posting(t, user, body, feedbackNonce, markerNonce);
    if r.Ok? {
      PostKeepsIntegrity(t, user, body, feedbackNonce, markerNonce);
      var after := AfterPost(t, r.value);
      db.feedback, db.markers := after.feedback, after.markers;
    }
  }

  /** A student can never post feedback, whatever the body. */
  lemma StudentsCannotPost(t: Tables, user: AuthUser, body: JsValue, feedbackNonce: string, markerNonce: nat -> string)
    requires user.role == "student"
    ensures Posting(t, user, body, feedbackNonce, markerNonce) == Err(OnlyTeachers)
  {
  }

  /**
   * Feedback may target a soft-deleted entry: the target check only looks the entry
   * up, while the entry check of the other routes refuses it.
   */
  lemma DeletedEntryIsTargetable(t: Tables, user: AuthUser, entryId: string)
    requires entryId in t.entries && t.entries[entryId].deletedAt.Some?
    requires (user.id, t.entries[entryId].courseId) in t.memberships
    ensures TargetCourse(t, user, "entry", entryId) == Ok(t.entries[entryId].courseId)
    ensures EntryAccess(t, user, entryId) == Err(EntryDeleted)
  {
  }

  /**
   * Every status the server stores decodes on the client to the case with that raw
   * value, and the client's raw values are exactly the statuses the server accepts.
   */
  lemma {:induction false} StatusesAgreeWithClient(t: Tables, user: AuthUser, body: JsValue, feedbackNonce: string,
                                                   markerNonce: nat -> string)
    requires Posting(t, user, body, feedbackNonce, markerNonce).Ok?
    ensures var status := Posting(t, user, body, feedbackNonce, markerNonce).value.feedback.status;
      LocalModels.FeedbackStatusFromRaw(status).Some? &&
      LocalModels.FeedbackStatusRaw(LocalModels.FeedbackStatusOf(status)) == status
    ensures forall f: LocalModels.FeedbackStatus :: LocalModels.FeedbackStatusRaw(f) in FeedbackStatuses
  {
    PostingOutcome(t, user, body, feedbackNonce, markerNonce);
    var status := Posting(t, user, body, feedbackNonce, markerNonce).value.feedback.status;
    LocalModels.FeedbackRawValues(status);
    forall f: LocalModels.FeedbackStatus ensures LocalModels.FeedbackStatusRaw(f) in FeedbackStatuses {
      LocalModels.FeedbackRawValues(LocalModels.FeedbackStatusRaw(f));
    }
  }

  // ---------------------------------------------------------------------------
  // Listing feedback
  // ---------------------------------------------------------------------------

  /** The feedback left on an accessible entry itself (not on its artifacts). */
  function ListFeedback(t: Tables, user: AuthUser, entryId: string): (r: Result<set<Feedback>, ApiError>)
    ensures EntryAccess(t, user, entryId).Err? ==> r == Err(EntryAccess(t, user, entryId).error)
    ensures r.Ok? <==> EntryAccess(t, user, entryId).Ok?
    ensures r.Ok? ==> forall f :: f in r.value <==>
      f in t.feedback.Values && f.targetType == "entry" && f.targetId == t.entries[entryId].id
  {
    var entry :- EntryAccess(t, user, entryId);
    Ok(set f | f in t.feedback.Values && f.targetType == "entry" && f.targetId == entry.id)
  }

  /** Feedback posted on an entry is listed afterwards for anyone who may read that entry. */
  lemma PostedFeedbackIsListed(t: Tables, user: AuthUser, body: JsValue, feedbackNonce: string,
                               markerNonce: nat -> string, reader: AuthUser)
    requires Integrity(t)
    requires Posting(t, user, body, feedbackNonce, markerNonce).Ok?
    requires var f := Posting(t, user, body, feedbackNonce, markerNonce).value.feedback;
      f.targetType == "entry" && EntryAccess(t, reader, f.targetId).Ok?
    ensures var p := Posting(t, user, body, feedbackNonce, markerNonce).value;
      var listed := ListFeedback(AfterPost(t, p), reader, p.feedback.targetId);
      listed.Ok? && p.feedback in listed.value
  {
    PostingOutcome(t, user, body, feedbackNonce, markerNonce);
    var p := Posting(t, user, body, feedbackNonce, markerNonce).value;
    var t' := AfterPost(t, p);
    assert t'.entries == t.entries && t'.memberships == t.memberships;
    assert EntryAccess(t', reader, p.feedback.targetId) == EntryAccess(t, reader, p.feedback.targetId);
    assert t'.feedback[p.feedback.id] == p.feedback;
  }
}
