/**
 * The artifact routes: registering a recording on an entry, handing out a presigned
 * upload URL, and confirming that the upload reached the bucket. An artifact's
 * upload state moves pending -> uploading (presign, from any state) -> uploaded
 * (confirm).
 *
 * The bucket is reached through oracles: `signUpload(key, contentType)` is the
 * presigned PUT URL and `objectExists(key)` the outcome of the existence probe.
 */
module ArtifactRoutes {
  import opened Common
  import opened Validation
  import opened Store
  import opened Access
  import EntryRoutes

  const ArtifactNotFound: ApiError := ApiError(404, "ARTIFACT_NOT_FOUND")
  const ArtifactAccessDenied: ApiError := ApiError(403, "ARTIFACT_ACCESS_DENIED")
  const MissingStorageKey: ApiError := ApiError(400, "MISSING_STORAGE_KEY")
  const UploadNotFound: ApiError := ApiError(409, "UPLOAD_NOT_FOUND")

  /**
   * The body checks of `POST /entries/:entryId/artifacts`: a string id, a type of
   * audio or video and a non-negative duration. A body failing any of them is
   * answered 400.
   */
  predicate ArtifactFieldsValid(body: JsValue) {
    Get(body, "id").Str? && Get(body, "type") in [Str("audio"), Str("video")] &&
    Get(body, "durationSeconds").Num? && Get(body, "durationSeconds").n >= 0
  }

  /**
   * `POST /entries/:entryId/artifacts`: only the owning student; the body needs a
   * string id, a type of audio or video and a non-negative duration. The new row
   * starts pending with no storage key and no remote URL.
   */
  function NewArtifact(t: Tables, user: AuthUser, entryId: string, body: JsValue): (r: Result<Artifact, ApiError>)
    ensures OwnerAccess(t, user, entryId).Err? ==> r == Err(OwnerAccess(t, user, entryId).error)
    ensures r.Ok? ==> OwnerAccess(t, user, entryId).Ok?
    ensures r.Ok? ==> r.value.id !in t.artifacts && Get(body, "id") == Str(r.value.id)
    ensures r.Ok? ==> r.value.kind in ["audio", "video"] && Get(body, "type") == Str(r.value.kind)
    ensures r.Ok? ==> r.value.durationSeconds >= 0 && Get(body, "durationSeconds") == Num(r.value.durationSeconds)
    ensures r.Ok? ==> r.value.entryId == entryId && r.value.uploadState == "pending"
    ensures r.Ok? ==> r.value.storageKey.None? && r.value.remoteUrl.None?
    ensures OwnerAccess(t, user, entryId).Ok? ==>
      (r.Ok? <==> ArtifactFieldsValid(body) && Get(body, "id").s !in t.artifacts)
    ensures OwnerAccess(t, user, entryId).Ok? && !ArtifactFieldsValid(body) ==> r == Err(ValidationError)
    ensures OwnerAccess(t, user, entryId).Ok? && ArtifactFieldsValid(body) && Get(body, "id").s in t.artifacts ==>
      r == Err(InternalError)
  {
    var _ :- OwnerAccess(t, user, entryId);
    var id :- RequireStringField(Get(body, "id"));
    var kind :- RequireEnum(Get(body, "type"), ["audio", "video"]);
    var durationSeconds :- RequireDuration(Get(body, "durationSeconds"));
    if id in t.artifacts then Err(InternalError)
    else Ok(Artifact(id, entryId, kind, durationSeconds, "pending", None, None))
  }

  method CreateArtifact(db: Database, user: AuthUser, entryId: string, body: JsValue)
    returns (r: Result<Artifact, ApiError>)
    requires db.Valid()
    modifies db
    ensures r == NewArtifact(old(db.Snapshot()), user, entryId, body)
    ensures r.Ok? ==> db.Snapshot() == old(db.Snapshot()).(artifacts := old(db.artifacts)[r.value.id := r.value])
    ensures r.Err? ==> db.Snapshot() == old(db.Snapshot())
    ensures db.Valid()
  {
    r := NewArtifact(db.Snapshot(), user, entryId, body);
    if r.Ok? {
      PutArtifactKeepsIntegrity(db.Snapshot(), r.value);
      db.artifacts := db.artifacts[r.value.id := r.value];
    }
  }

  /** A new artifact is pending, so the entry cannot be submitted until it is uploaded. */
  lemma NewArtifactBlocksSubmit(t: Tables, user: AuthUser, entryId: string, body: JsValue, anyone: AuthUser)
    requires NewArtifact(t, user, entryId, body).Ok?
    ensures var a := NewArtifact(t, user, entryId, body).value;
      EntryRoutes.Submitted(t.(artifacts := t.artifacts[a.id := a]), anyone, entryId).Err?
  {
    var a := NewArtifact(t, user, entryId, body).value;
    var t' := t.(artifacts := t.artifacts[a.id := a]);
    assert t'.artifacts[a.id] == a;
    assert a in EntryRoutes.ArtifactsOf(t', entryId);
  }

  /** The key an upload goes to: the one already recorded, or `artifacts/<entryId>/<artifactId>`. */
  function UploadKey(a: Artifact): (key: string)
    ensures a.storageKey.Some? ==> key == a.storageKey.value
    ensures a.storageKey.None? ==> key == "artifacts/" + a.entryId + "/" + a.id
  {
    a.storageKey.GetOr("artifacts/" + a.entryId + "/" + a.id)
  }

  function ContentType(kind: string): (r: string)
    ensures r == "audio/m4a" <==> kind == "audio"
    ensures r == "audio/m4a" || r == "video/mp4"
  {
    if kind == "audio" then "audio/m4a" else "video/mp4"
  }

  /** The artifact's entry and the caller's membership in its course, as presign and confirm look them up. */
  function ArtifactCourse(t: Tables, user: AuthUser, artifactId: string): (r: Result<Entry, ApiError>)
    ensures artifactId !in t.artifacts ==> r == Err(ArtifactNotFound)
    ensures r.Ok? <==>
      artifactId in t.artifacts && t.artifacts[artifactId].entryId in t.entries &&
      (user.id, t.entries[t.artifacts[artifactId].entryId].courseId) in t.memberships
    ensures r.Ok? ==> r.value == t.entries[t.artifacts[artifactId].entryId]
    ensures (artifactId in t.artifacts && t.artifacts[artifactId].entryId in t.entries &&
             (user.id, t.entries[t.artifacts[artifactId].entryId].courseId) !in t.memberships) ==>
      r == Err(CourseAccessDenied)
  {
    if artifactId !in t.artifacts then Err(ArtifactNotFound)
    else if t.artifacts[artifactId].entryId !in t.entries then Err(InternalError)
    else
      var entry := t.entries[t.artifacts[artifactId].entryId];
      var _ :- CourseRole(t, user.id, entry.courseId);
      Ok(entry)
  }

  /**
   * `POST /artifacts/:artifactId/presign`: a member of the course may presign, except
   * a student who does not own the entry. The key is kept once set, and the state
   * becomes uploading whatever it was.
   */
  function Presigned(t: Tables, user: AuthUser, artifactId: string): (r: Result<Artifact, ApiError>)
    ensures ArtifactCourse(t, user, artifactId).Err? ==> r == Err(ArtifactCourse(t, user, artifactId).error)
    ensures (ArtifactCourse(t, user, artifactId).Ok? && user.role == "student" &&
             ArtifactCourse(t, user, artifactId).value.studentId != user.id) ==> r == Err(ArtifactAccessDenied)
    ensures r.Ok? <==>
      ArtifactCourse(t, user, artifactId).Ok? &&
      (user.role == "student" ==> ArtifactCourse(t, user, artifactId).value.studentId == user.id)
    ensures r.Ok? ==> var a := t.artifacts[artifactId];
      r.value == a.(storageKey := Some(UploadKey(a)), uploadState := "uploading")
  {
    var entry :- ArtifactCourse(t, user, artifactId);
    if user.role == "student" && entry.studentId != user.id then Err(ArtifactAccessDenied)
    else
      var a := t.artifacts[artifactId];
      Ok(a.(storageKey := Some(UploadKey(a)), uploadState := "uploading"))
  }

  datatype PresignResponse = PresignResponse(uploadUrl: string, storageKey: string, expiresInSeconds: int)

  method Presign(db: Database, user: AuthUser, artifactId: string, signUpload: (string, string) -> string,
                 ttlSeconds: int) returns (r: Result<PresignResponse, ApiError>)
    requires db.Valid()
    modifies db
    ensures var p := Presigned(old(db.Snapshot()), user, artifactId);
      (p.Err? ==> r == Err(p.error) && db.Snapshot() == old(db.Snapshot())) &&
      (p.Ok? ==>
        var key := p.value.storageKey.value;
        r == Ok(PresignResponse(signUpload(key, ContentType(p.value.kind)), key, ttlSeconds)) &&
        db.Snapshot() == old(db.Snapshot()).(artifacts := old(db.artifacts)[artifactId := p.value]))
    ensures db.Valid()
  {
    var p := Presigned(db.Snapshot(), user, artifactId);
    if p.Err? {
      return Err(p.error);
    }
    var artifact := p.value;
    var key := artifact.storageKey.value;
    var uploadUrl := signUpload(key, ContentType(artifact.kind));
    PutArtifactKeepsIntegrity(db.Snapshot(), artifact);
    db.artifacts := db.artifacts[artifactId := artifact];
    r := Ok(PresignResponse(uploadUrl, key, ttlSeconds));
  }

  /** Presigning again gives the same key and the same row: the key never changes once set. */
  lemma PresignIsStable(t: Tables, user: AuthUser, artifactId: string)
    requires Presigned(t, user, artifactId).Ok?
    ensures var t' := t.(artifacts := t.artifacts[artifactId := Presigned(t, user, artifactId).value]);
      Presigned(t', user, artifactId) == Presigned(t, user, artifactId)
  {
  }

  /** Presigning an artifact that is already uploaded moves it back to uploading, so the entry can no longer be submitted. */
  lemma PresignReopensUpload(t: Tables, user: AuthUser, artifactId: string, anyone: AuthUser)
    requires Presigned(t, user, artifactId).Ok?
    ensures Presigned(t, user, artifactId).value.uploadState == "uploading"
    ensures var a := Presigned(t, user, artifactId).value;
      EntryRoutes.Submitted(t.(artifacts := t.artifacts[artifactId := a]), anyone, a.entryId).Err?
  {
    var a := Presigned(t, user, artifactId).value;
    var t' := t.(artifacts := t.artifacts[artifactId := a]);
    assert t'.artifacts[artifactId] == a;
    assert a in EntryRoutes.ArtifactsOf(t', a.entryId);
  }

  /**
   * `POST /artifacts/:artifactId/confirm`: any member of the course may confirm (no
   * ownership test); the artifact needs a non-empty key and the object must exist.
   * The artifact becomes uploaded with its `s3://<bucket>/<key>` URL.
   */
  function Confirmed(t: Tables, user: AuthUser, artifactId: string, bucket: string, objectExists: string -> bool)
    : (r: Result<Artifact, ApiError>)
    ensures ArtifactCourse(t, user, artifactId).Err? ==> r == Err(ArtifactCourse(t, user, artifactId).error)
    ensures ArtifactCourse(t, user, artifactId).Ok? && !EntryRoutes.HasObject(t.artifacts[artifactId]) ==>
      r == Err(MissingStorageKey)
    ensures (ArtifactCourse(t, user, artifactId).Ok? && EntryRoutes.HasObject(t.artifacts[artifactId]) &&
             !objectExists(t.artifacts[artifactId].storageKey.value)) ==> r == Err(UploadNotFound)
    ensures r.Ok? <==>
      ArtifactCourse(t, user, artifactId).Ok? && EntryRoutes.HasObject(t.artifacts[artifactId]) &&
      objectExists(t.artifacts[artifactId].storageKey.value)
    ensures r.Ok? ==> var a := t.artifacts[artifactId];
      r.value == a.(uploadState := "uploaded", remoteUrl := Some("s3://" + bucket + "/" + a.storageKey.value))
  {
    var _ :- ArtifactCourse(t, user, artifactId);
    var a := t.artifacts[artifactId];
    if a.storageKey.None? || a.storageKey.value == "" then Err(MissingStorageKey)
    else if !objectExists(a.storageKey.value) then Err(UploadNotFound)
    else Ok(a.(uploadState := "uploaded", remoteUrl := Some("s3://" + bucket + "/" + a.storageKey.value)))
  }

  method Confirm(db: Database, user: AuthUser, artifactId: string, bucket: string, objectExists: string -> bool)
    returns (r: Result<Artifact, ApiError>)
    requires db.Valid()
    modifies db
    ensures r == Confirmed(old(db.Snapshot()), user, artifactId, bucket, objectExists)
    ensures r.Ok? ==> db.Snapshot() == old(db.Snapshot()).(artifacts := old(db.artifacts)[artifactId := r.value])
    ensures r.Err? ==> db.Snapshot() == old(db.Snapshot())
    ensures db.Valid()
  {
    r := Confirmed(db.Snapshot(), user, artifactId, bucket, objectExists);
    if r.Ok? {
      PutArtifactKeepsIntegrity(db.Snapshot(), r.value);
      db.artifacts := db.artifacts[artifactId := r.value];
    }
  }

  /** A fresh artifact has no key yet, so confirming before presigning is refused. */
  lemma ConfirmNeedsPresign(t: Tables, user: AuthUser, entryId: string, body: JsValue, bucket: string,
                            objectExists: string -> bool)
    requires Integrity(t) && NewArtifact(t, user, entryId, body).Ok?
    ensures var a := NewArtifact(t, user, entryId, body).value;
      Confirmed(t.(artifacts := t.artifacts[a.id := a]), user, a.id, bucket, objectExists) == Err(MissingStorageKey)
  {
    var a := NewArtifact(t, user, entryId, body).value;
    var t' := t.(artifacts := t.artifacts[a.id := a]);
    assert t'.artifacts[a.id] == a;
  }

  /**
   * The upload flow: a new artifact is presigned to `artifacts/<entryId>/<artifactId>`;
   * once the object is there, confirming marks it uploaded with the matching URL.
   */
  lemma {:induction false} UploadFlow(t: Tables, user: AuthUser, entryId: string, body: JsValue, bucket: string,
                                      objectExists: string -> bool)
    requires Integrity(t) && NewArtifact(t, user, entryId, body).Ok?
    requires var a := NewArtifact(t, user, entryId, body).value;
      objectExists("artifacts/" + entryId + "/" + a.id)
    ensures var a := NewArtifact(t, user, entryId, body).value;
      var t1 := t.(artifacts := t.artifacts[a.id := a]);
      var key := "artifacts/" + entryId + "/" + a.id;
      Presigned(t1, user, a.id) == Ok(a.(storageKey := Some(key), uploadState := "uploading")) &&
      var t2 := t1.(artifacts := t1.artifacts[a.id := Presigned(t1, user, a.id).value]);
      Confirmed(t2, user, a.id, bucket, objectExists) ==
        Ok(a.(storageKey := Some(key), uploadState := "uploaded", remoteUrl := Some("s3://" + bucket + "/" + key)))
  {
    var a := NewArtifact(t, user, entryId, body).value;
    var t1 := t.(artifacts := t.artifacts[a.id := a]);
    var key := "artifacts/" + entryId + "/" + a.id;
    var entry := t.entries[entryId];
    assert t1.artifacts[a.id] == a;
    assert ArtifactCourse(t1, user, a.id) == Ok(entry);
    var p := Presigned(t1, user, a.id);
    assert p == Ok(a.(storageKey := Some(key), uploadState := "uploading"));
    var t2 := t1.(artifacts := t1.artifacts[a.id := p.value]);
    assert t2.artifacts[a.id] == p.value;
    assert ArtifactCourse(t2, user, a.id) == Ok(entry);
    assert |key| > 0;
  }
}
