/**
 * The client's persisted records: practice entries and their recordings, feedback
 * received, and the outbox's queue item. Enumerations are stored as their raw
 * strings and read back with a default when the stored string is not recognised;
 * the tag list is stored through the JSON tag codec.
 */
module LocalModels {
  import opened Common
  import TagCodec

  // ---------------------------------------------------------------------------
  // Raw-value enumerations
  // ---------------------------------------------------------------------------

  datatype EntryStatus = Draft | Submitted
  datatype ArtifactType = Audio | Video
  datatype UploadState = Pending | Uploading | Uploaded | Failed
  datatype FeedbackStatus = StatusOk | NeedsRevision | NextGoal

  function EntryStatusRaw(s: EntryStatus): string {
    match s
    case Draft => "draft"
    case Submitted => "submitted"
  }

  function ArtifactTypeRaw(t: ArtifactType): string {
    match t
    case Audio => "audio"
    case Video => "video"
  }

  function UploadStateRaw(u: UploadState): string {
    match u
    case Pending => "pending"
    case Uploading => "uploading"
    case Uploaded => "uploaded"
    case Failed => "failed"
  }

  function FeedbackStatusRaw(f: FeedbackStatus): string {
    match f
    case StatusOk => "ok"
    case NeedsRevision => "needs_revision"
    case NextGoal => "next_goal"
  }

  /** `FeedbackStatus(rawValue:)`: the case whose raw value is `raw`, if any. */
  function FeedbackStatusFromRaw(raw: string): (r: Option<FeedbackStatus>)
    ensures r.Some? ==> FeedbackStatusRaw(r.value) == raw
    ensures r.None? ==> forall f: FeedbackStatus :: FeedbackStatusRaw(f) != raw
  {
    if raw == "ok" then Some(StatusOk)
    else if raw == "needs_revision" then Some(NeedsRevision)
    else if raw == "next_goal" then Some(NextGoal)
    else None
  }

  /** The `status` getter of an entry: the stored case, or draft when unrecognised. */
  function EntryStatusOf(raw: string): (s: EntryStatus)
    ensures s == Submitted <==> raw == "submitted"
    ensures forall t: EntryStatus :: EntryStatusRaw(t) == raw ==> s == t
  {
    if raw == "submitted" then Submitted else Draft
  }

  /** The `type` getter of an artifact: the stored case, or audio when unrecognised. */
  function ArtifactTypeOf(raw: string): (t: ArtifactType)
    ensures t == Video <==> raw == "video"
    ensures forall u: ArtifactType :: ArtifactTypeRaw(u) == raw ==> t == u
  {
    if raw == "video" then Video else Audio
  }

  /** The `uploadState` getter of an artifact: the stored case, or pending when unrecognised. */
  function UploadStateOf(raw: string): (u: UploadState)
    ensures u == Uploading <==> raw == "uploading"
    ensures u == Uploaded <==> raw == "uploaded"
    ensures u == Failed <==> raw == "failed"
    ensures forall v: UploadState :: UploadStateRaw(v) == raw ==> u == v
  {
    if raw == "uploading" then Uploading
    else if raw == "uploaded" then Uploaded
    else if raw == "failed" then Failed
    else Pending
  }

  /** The `status` getter of a feedback record: the stored case, or ok when unrecognised. */
  function FeedbackStatusOf(raw: string): (f: FeedbackStatus)
    ensures FeedbackStatusFromRaw(raw).None? ==> f == StatusOk
    ensures FeedbackStatusFromRaw(raw).Some? ==> FeedbackStatusRaw(f) == raw
  {
    FeedbackStatusFromRaw(raw).GetOr(StatusOk)
  }

  /** The raw values of feedback statuses are exactly the three strings the server accepts. */
  lemma FeedbackRawValues(raw: string)
    ensures FeedbackStatusFromRaw(raw).Some? <==> raw in ["ok", "needs_revision", "next_goal"]
  {
  }

  // ---------------------------------------------------------------------------
  // Records
  // ---------------------------------------------------------------------------

  class LocalArtifact {
    var id: string
    var entryId: string
    var typeRaw: string
    var durationSeconds: int
    var createdAt: int
    var uploadStateRaw: string
    var storageKey: Option<string>
    var remoteUrl: Option<string>
    var localPath: string

    /** A new recording starts pending, with no storage key and no remote URL. */
    constructor (id: string, entryId: string, kind: ArtifactType, durationSeconds: int, localPath: string, now: int)
      ensures this.id == id && this.entryId == entryId && this.durationSeconds == durationSeconds
      ensures this.localPath == localPath && createdAt == now
      ensures Kind() == kind && UploadStatus() == Pending
      ensures storageKey == None && remoteUrl == None
    {
      this.id := id;
      this.entryId := entryId;
      this.typeRaw := ArtifactTypeRaw(kind);
      this.durationSeconds := durationSeconds;
      this.createdAt := now;
      this.uploadStateRaw := UploadStateRaw(Pending);
      this.storageKey := None;
      this.remoteUrl := None;
      this.localPath := localPath;
    }

    function Kind(): ArtifactType
      reads this
    {
      ArtifactTypeOf(typeRaw)
    }

    method SetKind(kind: ArtifactType)
      modifies this`typeRaw
      ensures typeRaw == ArtifactTypeRaw(kind) && Kind() == kind
    {
      typeRaw := ArtifactTypeRaw(kind);
    }

    function UploadStatus(): UploadState
      reads this
    {
      UploadStateOf(uploadStateRaw)
    }

    method SetUploadStatus(u: UploadState)
      modifies this`uploadStateRaw
      ensures uploadStateRaw == UploadStateRaw(u) && UploadStatus() == u
    {
      uploadStateRaw := UploadStateRaw(u);
    }
  }

  /** A timed comment on a recording (`LocalMarker`); it is never updated after creation. */
  datatype Marker = Marker(id: string, timeSeconds: int, text: string)

  class LocalFeedback {
    var id: string
    var targetType: string
    var targetId: string
    var teacherName: string
    var statusRaw: string
    var commentsText: string
    var createdAt: int
    var markers: seq<Marker>

    constructor (id: string, targetType: string, targetId: string, teacherName: string,
                 status: FeedbackStatus, commentsText: string, now: int)
      ensures this.id == id && this.targetType == targetType && this.targetId == targetId
      ensures this.teacherName == teacherName && this.commentsText == commentsText
      ensures Status() == status && createdAt == now && markers == []
    {
      this.id := id;
      this.targetType := targetType;
      this.targetId := targetId;
      this.teacherName := teacherName;
      this.statusRaw := FeedbackStatusRaw(status);
      this.commentsText := commentsText;
      this.createdAt := now;
      this.markers := [];
    }

    function Status(): FeedbackStatus
      reads this
    {
      FeedbackStatusOf(statusRaw)
    }

    method SetStatus(s: FeedbackStatus)
      modifies this`statusRaw
      ensures statusRaw == FeedbackStatusRaw(s) && Status() == s
    {
      statusRaw := FeedbackStatusRaw(s);
    }
  }

  class LocalPracticeEntry {
    var id: string
    var courseId: string
    var studentId: string
    var practiceDate: int
    var goalText: string
    var durationSeconds: Option<int>
    var tagsCSV: string
    var notes: Option<string>
    var statusRaw: string
    var updatedAt: int
    var deletedAt: Option<int>
    var artifacts: seq<LocalArtifact>
    var feedback: seq<LocalFeedback>

    /** A new entry stores its tags through the tag codec and starts with no tombstone and no children. */
    constructor (id: string, courseId: string, studentId: string, practiceDate: int, goalText: string,
                 durationSeconds: Option<int>, tags: seq<string>, notes: Option<string>,
                 status: EntryStatus, now: int)
      ensures this.id == id && this.courseId == courseId && this.studentId == studentId
      ensures this.practiceDate == practiceDate && this.goalText == goalText
      ensures this.durationSeconds == durationSeconds && this.notes == notes
      ensures tagsCSV == TagCodec.EncodeTags(tags) && Tags() == tags
      ensures Status() == status && updatedAt == now
      ensures deletedAt == None && artifacts == [] && feedback == []
    {
      this.id := id;
      this.courseId := courseId;
      this.studentId := studentId;
      this.practiceDate := practiceDate;
      this.goalText := goalText;
      this.durationSeconds := durationSeconds;
      this.tagsCSV := TagCodec.EncodeTags(tags);
      this.notes := notes;
      this.statusRaw := EntryStatusRaw(status);
      this.updatedAt := now;
      this.deletedAt := None;
      this.artifacts := [];
      this.feedback := [];
      new;
      TagCodec.TagsRoundTrip(tags);
    }

    function Status(): EntryStatus
      reads this
    {
      EntryStatusOf(statusRaw)
    }

    method SetStatus(s: EntryStatus)
      modifies this`statusRaw
      ensures statusRaw == EntryStatusRaw(s) && Status() == s
    {
      statusRaw := EntryStatusRaw(s);
    }

    function Tags(): seq<string>
      reads this
    {
      TagCodec.DecodeTags(tagsCSV)
    }

    /** Setting the tags and reading them back gives the same list. */
    method SetTags(tags: seq<string>)
      modifies this`tagsCSV
      ensures tagsCSV == TagCodec.EncodeTags(tags) && Tags() == tags
    {
      tagsCSV := TagCodec.EncodeTags(tags);
      TagCodec.TagsRoundTrip(tags);
    }
  }

  // ---------------------------------------------------------------------------
  // Outbox queue item
  // ---------------------------------------------------------------------------

  /** One persisted outbox task (`SyncQueueItem`); times are whole seconds. */
  datatype QueueItem = QueueItem(
    id: string,
    kind: string,
    payloadJSON: string,
    status: string,
    retryCount: nat,
    lastError: Option<string>,
    createdAt: int,
    nextAttemptAt: Option<int>)

  /** The queue item initialiser: a pending task that has never been tried. */
  function NewQueueItem(id: string, kind: string, payloadJSON: string, now: int): (item: QueueItem)
    ensures item.id == id && item.kind == kind && item.payloadJSON == payloadJSON
    ensures item.status == "pending" && item.retryCount == 0 && item.lastError == None
    ensures item.createdAt == now && item.nextAttemptAt == None
  {
    QueueItem(id, kind, payloadJSON, "pending", 0, None, now, None)
  }
}
