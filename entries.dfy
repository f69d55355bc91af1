/**
 * The practice-entry routes: listing a course's entries, creating a draft, editing
 * it (with the edit lock once submitted), submitting it, and deleting it together
 * with its media objects, artifacts, feedback and markers.
 *
 * Each route's decision is a function of a snapshot of the tables; the route
 * method makes it and then performs the writes.
 */
module EntryRoutes {
  import opened Common
  import opened Validation
  import opened Store
  import opened Access

  const EntryLocked: ApiError := ApiError(409, "ENTRY_LOCKED")
  const ArtifactsNotUploaded: ApiError := ApiError(409, "ARTIFACTS_NOT_UPLOADED")
  const StorageDeleteFailed: ApiError := ApiError(502, "STORAGE_DELETE_FAILED")

  // ---------------------------------------------------------------------------
  // Listing
  // ---------------------------------------------------------------------------

  /**
   * `GET /courses/:courseId/entries`: the course's entries that are not soft-deleted;
   * only the caller's own unless their role in the course is teacher.
   */
  function ListEntries(t: Tables, user: AuthUser, courseId: string): (r: Result<set<Entry>, ApiError>)
    ensures r.Ok? <==> (user.id, courseId) in t.memberships
    ensures r.Err? ==> r.error == CourseAccessDenied
    ensures r.Ok? ==> forall e :: e in r.value <==>
      e in t.entries.Values && e.courseId == courseId && e.deletedAt.None? &&
      (t.memberships[(user.id, courseId)] == "teacher" || e.studentId == user.id)
  {
    var role :- CourseRole(t, user.id, courseId);
    Ok(set e | e in t.entries.Values && e.courseId == courseId && e.deletedAt.None? &&
                (role == "teacher" || e.studentId == user.id))
  }

  /** A student member sees exactly their own live entries of the course, whatever others exist. */
  lemma StudentListsOwnEntries(t: Tables, user: AuthUser, courseId: string, e: Entry)
    requires (user.id, courseId) in t.memberships && t.memberships[(user.id, courseId)] == "student"
    requires e in t.entries.Values && e.courseId == courseId && e.deletedAt.None?
    ensures e in ListEntries(t, user, courseId).value <==> e.studentId == user.id
  {
  }

  // ---------------------------------------------------------------------------
  // Creating
  // ---------------------------------------------------------------------------

  /** `v ?? fallback` for a nullable text column: a value that is not a string is refused by the database client. */
  function NullableText(v: JsValue, fallback: Option<string>): (r: Result<Option<string>, ApiError>)
    ensures Nullish(v) ==> r == Ok(fallback)
    ensures v.Str? ==> r == Ok(Some(v.s))
    ensures !Nullish(v) && !v.Str? ==> r == Err(InternalError)
  {
    if Nullish(v) then Ok(fallback)
    else if v.Str? then Ok(Some(v.s))
    else Err(InternalError)
  }

  /**
   * The body checks of `POST /courses/:courseId/entries`: a string id, a parsable
   * practice date, a string goal, and, when present, a string array of tags and a
   * non-negative duration. A body failing any of them is answered 400.
   */
  predicate EntryFieldsValid(body: JsValue, readDate: DateReader) {
    Get(body, "id").Str? && readDate(Get(body, "practiceDate")).Some? && Get(body, "goalText").Str? &&
    (Get(body, "tags").Undefined? || (Get(body, "tags").Arr? && AllStrings(Get(body, "tags").items))) &&
    (Get(body, "durationSeconds").Undefined? ||
     (Get(body, "durationSeconds").Num? && Get(body, "durationSeconds").n >= 0))
  }

  /**
   * `POST /courses/:courseId/entries`: the caller's course role must be student; the
   * body's fields are checked in order (id, practiceDate, goalText, tags,
   * durationSeconds); the new entry is a draft owned by the caller. An id already in
   * use is a unique-key violation, answered as an internal error.
   */
  function NewEntry(t: Tables, user: AuthUser, courseId: string, body: JsValue, readDate: DateReader)
    : (r: Result<Entry, ApiError>)
    ensures (user.id, courseId) !in t.memberships ==> r == Err(CourseAccessDenied)
    ensures (user.id, courseId) in t.memberships && t.memberships[(user.id, courseId)] != "student" ==>
      r == Err(OnlyStudents)
    ensures r.Ok? ==> (user.id, courseId) in t.memberships && t.memberships[(user.id, courseId)] == "student"
    ensures r.Ok? ==> r.value.id !in t.entries && Get(body, "id") == Str(r.value.id)
    ensures r.Ok? ==> r.value.courseId == courseId && r.value.studentId == user.id
    ensures r.Ok? ==> r.value.status == "draft" && r.value.deletedAt.None?
    ensures r.Ok? ==> readDate(Get(body, "practiceDate")) == Some(r.value.practiceDate)
    ensures r.Ok? ==> Get(body, "goalText") == Str(r.value.goalText)
    ensures r.Ok? ==> if Get(body, "tags").Undefined? then r.value.tags == []
                      else RequireStringArray(Get(body, "tags")) == Ok(r.value.tags)
    ensures r.Ok? ==> if Get(body, "durationSeconds").Undefined? then r.value.durationSeconds.None?
                      else r.value.durationSeconds.Some? && r.value.durationSeconds.value >= 0 &&
                           Get(body, "durationSeconds") == Num(r.value.durationSeconds.value)
    ensures r.Ok? ==> NullableText(Get(body, "notes"), None) == Ok(r.value.notes)
    ensures r.Err? ==> r.error in {CourseAccessDenied, OnlyStudents, ValidationError, InternalError}
    ensures ((user.id, courseId) in t.memberships && t.memberships[(user.id, courseId)] == "student" &&
             !EntryFieldsValid(body, readDate)) ==> r == Err(ValidationError)
    ensures r.Ok? <==>
      (user.id, courseId) in t.memberships && t.memberships[(user.id, courseId)] == "student" &&
      EntryFieldsValid(body, readDate) && Get(body, "id").s !in t.entries &&
      (Nullish(Get(body, "notes")) || Get(body, "notes").Str?)
    ensures r.Err? && r.error == InternalError ==>
      EntryFieldsValid(body, readDate) &&
      (Get(body, "id").s in t.entries || !(Nullish(Get(body, "notes")) || Get(body, "notes").Str?))
  {
    var role :- CourseRole(t, user.id, courseId);
    if role != "student" then Err(OnlyStudents)
    else
      var id :- RequireStringField(Get(body, "id"));
      var practiceDate :- RequireValidDate(Get(body, "practiceDate"), readDate);
      var goalText :- RequireStringField(Get(body, "goalText"));
      var tags :- if Get(body, "tags").Undefined? then Ok([]) else RequireStringArray(Get(body, "tags"));
      var durationSeconds :- if Get(body, "durationSeconds").Undefined? then Ok(None)
                             else var d :- RequireDuration(Get(body, "durationSeconds")); Ok(Some(d));
      var notes :- NullableText(Get(body, "notes"), None);
      if id in t.entries then Err(InternalError)
      else Ok(Entry(id, courseId, user.id, practiceDate, goalText, durationSeconds, tags, notes, "draft", None))
  }

  /** A body with just a fresh id, a parsable date and a goal creates an untagged draft with no duration or notes. */
  lemma MinimalBodyCreatesDraft(t: Tables, user: AuthUser, courseId: string, id: string, date: JsValue,
                                goal: string, readDate: DateReader)
    requires (user.id, courseId) in t.memberships && t.memberships[(user.id, courseId)] == "student"
    requires id !in t.entries && readDate(date).Some?
    ensures var body := Obj(map["id" := Str(id), "practiceDate" := date, "goalText" := Str(goal)]);
      NewEntry(t, user, courseId, body, readDate) ==
        Ok(Entry(id, courseId, user.id, readDate(date).value, goal, None, [], None, "draft", None))
  {
    var body := Obj(map["id" := Str(id), "practiceDate" := date, "goalText" := Str(goal)]);
    assert Get(body, "tags") == Undefined && Get(body, "durationSeconds") == Undefined;
    assert Get(body, "notes") == Undefined;
  }

  method CreateEntry(db: Database, user: AuthUser, courseId: string, body: JsValue, readDate: DateReader)
    returns (r: Result<Entry, ApiError>)
    requires db.Valid()
    modifies db
    ensures r == NewEntry(old(db.Snapshot()), user, courseId, body, readDate)
    ensures r.Ok? ==> db.Snapshot() == old(db.Snapshot()).(entries := old(db.entries)[r.value.id := r.value])
    ensures r.Err? ==> db.Snapshot() == old(db.Snapshot())
    ensures db.Valid()
  {
    r := NewEntry(db.Snapshot(), user, courseId, body, readDate);
    if r.Ok? {
      PutEntryKeepsIntegrity(db.Snapshot(), r.value);
      db.entries := db.entries[r.value.id := r.value];
    }
  }

  // ---------------------------------------------------------------------------
  // Editing
  // ---------------------------------------------------------------------------

  /** The edit lock's test: any of the four locked fields is JavaScript-truthy in the body. */
  predicate TouchesLockedField(body: JsValue) {
    Truthy(Get(body, "goalText")) || Truthy(Get(body, "practiceDate")) ||
    Truthy(Get(body, "tags")) || Truthy(Get(body, "durationSeconds"))
  }

  /**
   * The body checks of `PATCH /entries/:entryId`: a truthy practice date must parse,
   * and a duration or tag list that is present must be a non-negative number or a
   * string array. A body failing any of them is answered 400.
   */
  predicate PatchFieldsValid(body: JsValue, readDate: DateReader) {
    (!Truthy(Get(body, "practiceDate")) || readDate(Get(body, "practiceDate")).Some?) &&
    (Get(body, "durationSeconds").Undefined? ||
     (Get(body, "durationSeconds").Num? && Get(body, "durationSeconds").n >= 0)) &&
    (Get(body, "tags").Undefined? || (Get(body, "tags").Arr? && AllStrings(Get(body, "tags").items)))
  }

  /** Text the database accepts for a column written with `??`: absent, or a string. */
  predicate TextOrAbsent(v: JsValue) {
    Nullish(v) || v.Str?
  }

  /**
   * The edit of an accessible entry: only callers whose global role is student; a
   * missing body fails when its fields are read; a submitted entry refuses truthy
   * locked fields; each field then keeps its old value unless the body supplies one.
   */
  function PatchedEntry(user: AuthUser, entry: Entry, body: JsValue, readDate: DateReader)
    : (r: Result<Entry, ApiError>)
    ensures user.role != "student" ==> r == Err(OnlyStudents)
    ensures user.role == "student" && Nullish(body) ==> r == Err(InternalError)
    ensures user.role == "student" && !Nullish(body) && entry.status == "submitted" && TouchesLockedField(body) ==>
      r == Err(EntryLocked)
    ensures r.Ok? ==> entry.status == "submitted" ==> !TouchesLockedField(body)
    ensures r.Ok? ==>
      r.value.id == entry.id && r.value.courseId == entry.courseId && r.value.studentId == entry.studentId &&
      r.value.status == entry.status && r.value.deletedAt == entry.deletedAt
    ensures r.Ok? ==> if Nullish(Get(body, "goalText")) then r.value.goalText == entry.goalText
                      else Get(body, "goalText") == Str(r.value.goalText)
    ensures r.Ok? ==> if Truthy(Get(body, "practiceDate")) then readDate(Get(body, "practiceDate")) == Some(r.value.practiceDate)
                      else r.value.practiceDate == entry.practiceDate
    ensures r.Ok? ==> if Get(body, "durationSeconds").Undefined? then r.value.durationSeconds == entry.durationSeconds
                      else r.value.durationSeconds.Some? && r.value.durationSeconds.value >= 0 &&
                           Get(body, "durationSeconds") == Num(r.value.durationSeconds.value)
    ensures r.Ok? ==> if Get(body, "tags").Undefined? then r.value.tags == entry.tags
                      else RequireStringArray(Get(body, "tags")) == Ok(r.value.tags)
    ensures r.Ok? ==> NullableText(Get(body, "notes"), entry.notes) == Ok(r.value.notes)
    ensures (user.role == "student" && !Nullish(body) && !(entry.status == "submitted" && TouchesLockedField(body)) &&
             !PatchFieldsValid(body, readDate)) ==> r == Err(ValidationError)
    ensures r.Ok? <==>
      user.role == "student" && !Nullish(body) && !(entry.status == "submitted" && TouchesLockedField(body)) &&
      PatchFieldsValid(body, readDate) && TextOrAbsent(Get(body, "goalText")) && TextOrAbsent(Get(body, "notes"))
    ensures r.Err? && r.error == InternalError ==>
      user.role == "student" &&
      (Nullish(body) ||
       (PatchFieldsValid(body, readDate) &&
        !(TextOrAbsent(Get(body, "goalText")) && TextOrAbsent(Get(body, "notes")))))
  {
    if user.role != "student" then Err(OnlyStudents)
    else if Nullish(body) then Err(InternalError)
    else if entry.status == "submitted" && TouchesLockedField(body) then Err(EntryLocked)
    else
      var goal := Get(body, "goalText");
      var practiceDate :- if Truthy(Get(body, "practiceDate")) then RequireValidDate(Get(body, "practiceDate"), readDate)
                          else Ok(entry.practiceDate);
      var durationSeconds :- if Get(body, "durationSeconds").Undefined? then Ok(entry.durationSeconds)
                             else var d :- RequireDuration(Get(body, "durationSeconds")); Ok(Some(d));
      var tags :- if Get(body, "tags").Undefined? then Ok(entry.tags) else RequireStringArray(Get(body, "tags"));
      var goalText :- if Nullish(goal) then Ok(entry.goalText) else if goal.Str? then Ok(goal.s) else Err(InternalError);
      var notes :- NullableText(Get(body, "notes"), entry.notes);
      Ok(entry.(goalText := goalText, practiceDate := practiceDate, durationSeconds := durationSeconds,
                tags := tags, notes := notes))
  }

  /** `PATCH /entries/:entryId`: the entry check, then the edit. */
  function Patch(t: Tables, user: AuthUser, entryId: string, body: JsValue, readDate: DateReader)
    : (r: Result<Entry, ApiError>)
    ensures EntryAccess(t, user, entryId).Err? ==> r == EntryAccess(t, user, entryId)
    ensures EntryAccess(t, user, entryId).Ok? ==> r == PatchedEntry(user, t.entries[entryId], body, readDate)
  {
    var entry :- EntryAccess(t, user, entryId);
    PatchedEntry(user, entry, body, readDate)
  }

  /** Notes stay editable on a submitted entry. */
  lemma NotesEditableAfterSubmit(user: AuthUser, entry: Entry, notes: string, readDate: DateReader)
    requires user.role == "student" && entry.status == "submitted"
    ensures PatchedEntry(user, entry, Obj(map["notes" := Str(notes)]), readDate) == Ok(entry.(notes := Some(notes)))
  {
    var body := Obj(map["notes" := Str(notes)]);
    assert Get(body, "goalText") == Undefined && Get(body, "practiceDate") == Undefined;
    assert Get(body, "tags") == Undefined && Get(body, "durationSeconds") == Undefined;
  }

  /** A body that names no field changes nothing. */
  lemma EmptyEditKeepsEntry(user: AuthUser, entry: Entry, readDate: DateReader)
    requires user.role == "student"
    ensures PatchedEntry(user, entry, Obj(map[]), readDate) == Ok(entry)
  {
  }

  /**
   * The lock tests truthiness, so an empty goal or a zero duration passes it and
   * overwrites the field of a submitted entry, while an empty tag list (an array is
   * truthy) is refused.
   */
  lemma FalsyEditsPassLock(user: AuthUser, entry: Entry, readDate: DateReader)
    requires user.role == "student" && entry.status == "submitted"
    ensures PatchedEntry(user, entry, Obj(map["goalText" := Str("")]), readDate) == Ok(entry.(goalText := ""))
    ensures PatchedEntry(user, entry, Obj(map["durationSeconds" := Num(0)]), readDate)
      == Ok(entry.(durationSeconds := Some(0)))
    ensures PatchedEntry(user, entry, Obj(map["tags" := Arr([])]), readDate) == Err(EntryLocked)
  {
    var blank := Obj(map["goalText" := Str("")]);
    assert !TouchesLockedField(blank);
    var zero := Obj(map["durationSeconds" := Num(0)]);
    assert !TouchesLockedField(zero);
    assert Get(zero, "durationSeconds") == Num(0);
    var noTags := Obj(map["tags" := Arr([])]);
    assert Truthy(Get(noTags, "tags"));
  }

  method PatchEntry(db: Database, user: AuthUser, entryId: string, body: JsValue, readDate: DateReader)
    returns (r: Result<Entry, ApiError>)
    requires db.Valid()
    modifies db
    ensures r == Patch(old(db.Snapshot()), user, entryId, body, readDate)
    ensures r.Ok? ==> db.Snapshot() == old(db.Snapshot()).(entries := old(db.entries)[entryId := r.value])
    ensures r.Err? ==> db.Snapshot() == old(db.Snapshot())
    ensures db.Valid()
  {
    var access := EntryAccess(db.Snapshot(), user, entryId);
    if access.Err? {
      return Err(access.error);
    }
    var entry := access.value;
    r := PatchedEntry(user, entry, body, readDate);
    if r.Ok? {
      PutEntryKeepsIntegrity(db.Snapshot(), r.value);
      db.entries := db.entries[entryId := r.value];
    }
  }

  // ---------------------------------------------------------------------------
  // Submitting
  // ---------------------------------------------------------------------------

  function ArtifactsOf(t: Tables, entryId: string): set<Artifact> {
    set a | a in t.artifacts.Values && a.entryId == entryId
  }

  predicate AllUploaded(artifacts: set<Artifact>) {
    forall a :: a in artifacts ==> a.uploadState == "uploaded"
  }

  /**
   * `POST /entries/:entryId/submit`: only the owning student, and only when the
   * entry has at least one artifact and every one of them is uploaded; only the
   * status changes.
   */
  function Submitted(t: Tables, user: AuthUser, entryId: string): (r: Result<Entry, ApiError>)
    ensures OwnerAccess(t, user, entryId).Err? ==> r == OwnerAccess(t, user, entryId)
    ensures OwnerAccess(t, user, entryId).Ok? && (ArtifactsOf(t, entryId) == {} || !AllUploaded(ArtifactsOf(t, entryId))) ==>
      r == Err(ArtifactsNotUploaded)
    ensures r.Ok? <==>
      OwnerAccess(t, user, entryId).Ok? && ArtifactsOf(t, entryId) != {} && AllUploaded(ArtifactsOf(t, entryId))
    ensures r.Ok? ==> r.value == t.entries[entryId].(status := "submitted")
  {
    var entry :- OwnerAccess(t, user, entryId);
    var artifacts := ArtifactsOf(t, entryId);
    if artifacts == {} || exists a :: a in artifacts && a.uploadState != "uploaded" then Err(ArtifactsNotUploaded)
    else Ok(entry.(status := "submitted"))
  }

  /** Submitting again leaves the entry submitted and changes nothing further. */
  lemma ResubmitIsIdempotent(t: Tables, user: AuthUser, entryId: string)
    requires Submitted(t, user, entryId).Ok?
    ensures var t' := t.(entries := t.entries[entryId := Submitted(t, user, entryId).value]);
      Submitted(t', user, entryId) == Submitted(t, user, entryId)
  {
    var t' := t.(entries := t.entries[entryId := Submitted(t, user, entryId).value]);
    assert ArtifactsOf(t', entryId) == ArtifactsOf(t, entryId);
  }

  method SubmitEntry(db: Database, user: AuthUser, entryId: string) returns (r: Result<Entry, ApiError>)
    requires db.Valid()
    modifies db
    ensures r == Submitted(old(db.Snapshot()), user, entryId)
    ensures r.Ok? ==> db.Snapshot() == old(db.Snapshot()).(entries := old(db.entries)[entryId := r.value])
    ensures r.Err? ==> db.Snapshot() == old(db.Snapshot())
    ensures db.Valid()
  {
    r := Submitted(db.Snapshot(), user, entryId);
    if r.Ok? {
      PutEntryKeepsIntegrity(db.Snapshot(), r.value);
      db.entries := db.entries[entryId := r.value];
    }
  }

  // ---------------------------------------------------------------------------
  // Deleting
  // ---------------------------------------------------------------------------

  function ArtifactIds(t: Tables, entryId: string): set<string> {
    set id | id in t.artifacts && t.artifacts[id].entryId == entryId
  }

  /** The stored object of an artifact, when its key is set and not empty. */
  predicate HasObject(a: Artifact) {
    a.storageKey.Some? && a.storageKey.value != ""
  }

  /** The object keys of the given artifacts. */
  function ObjectKeys(artifacts: map<string, Artifact>, ids: set<string>): set<string> {
    set id | id in ids && id in artifacts && HasObject(artifacts[id]) :: artifacts[id].storageKey.value
  }

  /** Feedback on the entry itself or on one of its artifacts. */
  predicate OnEntry(f: Feedback, entryId: string, artifactIds: set<string>) {
    (f.targetType == "entry" && f.targetId == entryId) ||
    (f.targetType == "artifact" && f.targetId in artifactIds)
  }

  function FeedbackOn(t: Tables, entryId: string): set<string> {
    set id | id in t.feedback && OnEntry(t.feedback[id], entryId, ArtifactIds(t, entryId))
  }

  function Without<V>(m: map<string, V>, ids: set<string>): (r: map<string, V>)
    ensures forall id :: id in r <==> id in m && id !in ids
    ensures forall id :: id in r ==> r[id] == m[id]
  {
    map id | id in m && id !in ids :: m[id]
  }

  function MarkersOutside(markers: map<string, Marker>, feedbackIds: set<string>): (r: map<string, Marker>)
    ensures forall id :: id in r <==> id in markers && markers[id].feedbackId !in feedbackIds
    ensures forall id :: id in r ==> r[id] == markers[id]
  {
    map id | id in markers && markers[id].feedbackId !in feedbackIds :: markers[id]
  }

  /**
   * The tables after an entry is deleted: the entry, its artifacts, the feedback on
   * either and that feedback's markers are gone, and every other row is as it was.
   */
  function AfterDelete(t: Tables, entryId: string): (u: Tables)
    ensures u.users == t.users && u.courses == t.courses && u.memberships == t.memberships
    ensures u.refreshTokens == t.refreshTokens
    ensures u.entries == t.entries - {entryId}
    ensures forall id :: id in u.artifacts <==> id in t.artifacts && t.artifacts[id].entryId != entryId
    ensures forall id :: id in u.feedback <==> id in t.feedback && !OnEntry(t.feedback[id], entryId, ArtifactIds(t, entryId))
    ensures forall id :: id in u.markers <==> id in t.markers && t.markers[id].feedbackId !in FeedbackOn(t, entryId)
    ensures forall id :: id in u.artifacts ==> u.artifacts[id] == t.artifacts[id]
    ensures forall id :: id in u.feedback ==> u.feedback[id] == t.feedback[id]
    ensures forall id :: id in u.markers ==> u.markers[id] == t.markers[id]
  {
    var removed := FeedbackOn(t, entryId);
    t.(entries := t.entries - {entryId},
       artifacts := Without(t.artifacts, ArtifactIds(t, entryId)),
       feedback := Without(t.feedback, removed),
       markers := MarkersOutside(t.markers, removed))
  }

  /** Deleting an entry leaves no row pointing at anything deleted. */
  lemma {:induction false} DeleteKeepsIntegrity(t: Tables, entryId: string)
    requires Integrity(t)
    ensures Integrity(AfterDelete(t, entryId))
  {
    var u := AfterDelete(t, entryId);
    var artifactIds := ArtifactIds(t, entryId);
    assert ArtifactsLinked(u) by {
      forall id | id in u.artifacts ensures u.artifacts[id].id == id && u.artifacts[id].entryId in u.entries {
        assert t.artifacts[id].entryId != entryId;
      }
    }
    assert FeedbackLinked(u) by {
      forall id | id in u.feedback
        ensures u.feedback[id].id == id && u.feedback[id].teacherId in u.users
        ensures TargetExists(u.feedback[id], u.entries, u.artifacts)
      {
        var f := t.feedback[id];
        assert !OnEntry(f, entryId, artifactIds);
        if f.targetType == "artifact" {
          assert f.targetId !in artifactIds;
          assert f.targetId in u.artifacts;
        }
      }
    }
    assert MarkersLinked(u) by {
      forall id | id in u.markers ensures u.markers[id].id == id && u.markers[id].feedbackId in u.feedback {
        var fid := t.markers[id].feedbackId;
        assert fid !in FeedbackOn(t, entryId);
      }
    }
  }

  /**
   * Deletes the stored object of every given artifact that has one, in no particular
   * order, stopping at the first failure; objects deleted before it stay deleted.
   */
  method DeleteObjects(store: ObjectStore, artifacts: map<string, Artifact>, ids: set<string>,
                       deleteObject: string -> bool) returns (ok: bool)
    requires ids <= artifacts.Keys
    modifies store
    ensures ok <==> forall key :: key in ObjectKeys(artifacts, ids) ==> deleteObject(key)
    ensures ok ==> store.keys == old(store.keys) - ObjectKeys(artifacts, ids)
    ensures !ok ==> old(store.keys) - ObjectKeys(artifacts, ids) <= store.keys <= old(store.keys)
  {
    // Two artifacts sharing a key delete it twice; the outcome is the same as once.
    var keys := ObjectKeys(artifacts, ids);
    var remaining := keys;
    while remaining != {}
      invariant remaining <= keys
      invariant store.keys == old(store.keys) - (keys - remaining)
      invariant forall key :: key in keys - remaining ==> deleteObject(key)
      decreases |remaining|
    {
      var key :| key in remaining;
      if !deleteObject(key) {
        return false;
      }
      store.keys := store.keys - {key};
      remaining := remaining - {key};
    }
    ok := true;
  }

  function ArtifactFeedback(feedback: map<string, Feedback>, artifactIds: set<string>): set<string> {
    set id | id in feedback && feedback[id].targetType == "artifact" && feedback[id].targetId in artifactIds
  }

  function EntryFeedback(feedback: map<string, Feedback>, entryId: string): set<string> {
    set id | id in feedback && feedback[id].targetType == "entry" && feedback[id].targetId == entryId
  }

  /** Removing nothing is the identity, so the transaction's emptiness guards change no outcome. */
  lemma RemovingNothing(t: Tables)
    ensures Without(t.feedback, {}) == t.feedback && Without(t.artifacts, {}) == t.artifacts
    ensures MarkersOutside(t.markers, {}) == t.markers
  {
  }

  /** The transaction's staged removals add up to the cascade. */
  lemma {:induction false} StagedRemovalIsCascade(t: Tables, entryId: string)
    ensures var artifactFeedback := ArtifactFeedback(t.feedback, ArtifactIds(t, entryId));
      var feedback := Without(t.feedback, artifactFeedback);
      var entryFeedback := EntryFeedback(feedback, entryId);
      Without(feedback, entryFeedback) == AfterDelete(t, entryId).feedback &&
      MarkersOutside(MarkersOutside(t.markers, artifactFeedback), entryFeedback) == AfterDelete(t, entryId).markers &&
      Without(t.artifacts, ArtifactIds(t, entryId)) == AfterDelete(t, entryId).artifacts
  {
    var artifactFeedback := ArtifactFeedback(t.feedback, ArtifactIds(t, entryId));
    var feedback := Without(t.feedback, artifactFeedback);
    var entryFeedback := EntryFeedback(feedback, entryId);
    assert artifactFeedback + entryFeedback == FeedbackOn(t, entryId);
    var u := AfterDelete(t, entryId);
    assert Without(feedback, entryFeedback) == u.feedback;
    assert MarkersOutside(MarkersOutside(t.markers, artifactFeedback), entryFeedback) == u.markers;
  }

  /** The delete transaction, step by step: artifact feedback and its markers, artifacts, entry feedback and its markers, the entry. */
  method RemoveEntryRows(db: Database, entryId: string)
    modifies db
    ensures db.Snapshot() == AfterDelete(old(db.Snapshot()), entryId)
  {
    ghost var t := db.Snapshot();
    StagedRemovalIsCascade(t, entryId);
    RemovingNothing(t);
    var artifacts, feedback, markers := db.artifacts, db.feedback, db.markers;
    var artifactIds := ArtifactIds(db.Snapshot(), entryId);
    if artifactIds != {} {
      var artifactFeedbackIds := ArtifactFeedback(feedback, artifactIds);
      if artifactFeedbackIds != {} {
        markers := MarkersOutside(markers, artifactFeedbackIds);
        feedback := Without(feedback, artifactFeedbackIds);
      }
      artifacts := Without(artifacts, artifactIds);
    } else {
      assert ArtifactFeedback(t.feedback, artifactIds) == {};
    }
    RemovingNothing(t.(feedback := feedback, markers := markers));
    var entryFeedbackIds := EntryFeedback(feedback, entryId);
    if entryFeedbackIds != {} {
      markers := MarkersOutside(markers, entryFeedbackIds);
      feedback := Without(feedback, entryFeedbackIds);
    }
    db.artifacts, db.feedback, db.markers, db.entries := artifacts, feedback, markers, db.entries - {entryId};
  }

  /**
   * `DELETE /entries/:entryId`: only the owning student; every stored object of the
   * entry's artifacts is deleted first, and a storage failure answers 502 before
   * any row is touched; then the rows go in one transaction.
   */
  method DeleteEntry(db: Database, store: ObjectStore, user: AuthUser, entryId: string, deleteObject: string -> bool)
    returns (r: Result<bool, ApiError>)
    requires db.Valid()
    modifies db, store
    ensures OwnerAccess(old(db.Snapshot()), user, entryId).Err? ==>
      r == Err(OwnerAccess(old(db.Snapshot()), user, entryId).error) &&
      db.Snapshot() == old(db.Snapshot()) && store.keys == old(store.keys)
    ensures OwnerAccess(old(db.Snapshot()), user, entryId).Ok? ==>
      var keys := ObjectKeys(old(db.artifacts), ArtifactIds(old(db.Snapshot()), entryId));
      (r.Ok? <==> forall key :: key in keys ==> deleteObject(key)) &&
      (r.Ok? ==> r.value && db.Snapshot() == AfterDelete(old(db.Snapshot()), entryId) &&
                 store.keys == old(store.keys) - keys) &&
      (r.Err? ==> r.error == StorageDeleteFailed && db.Snapshot() == old(db.Snapshot()) &&
                  old(store.keys) - keys <= store.keys <= old(store.keys))
    ensures db.Valid()
  {
    var check := OwnerAccess(db.Snapshot(), user, entryId);
    if check.Err? {
      return Err(check.error);
    }
    var artifactIds := ArtifactIds(db.Snapshot(), entryId);
    var ok := DeleteObjects(store, db.artifacts, artifactIds, deleteObject);
    if !ok {
      return Err(StorageDeleteFailed);
    }
    DeleteKeepsIntegrity(db.Snapshot(), entryId);
    RemoveEntryRows(db, entryId);
    r := Ok(true);
  }
}
