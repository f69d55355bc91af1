/**
 * The server's relational store: users, courses, memberships, practice entries,
 * artifacts, feedback, markers and refresh tokens, each a table keyed by id, and
 * the object store holding uploaded media, as a set of keys.
 *
 * Times are milliseconds since the epoch.
 */
module Store {
  import opened Common

  datatype User = User(id: string, displayName: string, globalRole: string)

  datatype Entry = Entry(
    id: string,
    courseId: string,
    studentId: string,
    practiceDate: int,
    goalText: string,
    durationSeconds: Option<int>,
    tags: seq<string>,
    notes: Option<string>,
    status: string,
    deletedAt: Option<int>)

  datatype Artifact = Artifact(
    id: string,
    entryId: string,
    kind: string,
    durationSeconds: int,
    uploadState: string,
    storageKey: Option<string>,
    remoteUrl: Option<string>)

  datatype Feedback = Feedback(
    id: string,
    targetType: string,
    targetId: string,
    teacherId: string,
    status: string,
    commentsText: string)

  datatype Marker = Marker(id: string, feedbackId: string, timeSeconds: int, text: string)

  /** The SHA-256 hex digest of a token, as an injective constructor. */
  datatype Digest = Sha256(input: string)

  datatype RefreshRecord = RefreshRecord(
    id: string,
    userId: string,
    tokenHash: Digest,
    expiresAt: int,
    revokedAt: Option<int>)

  /** The contents of every table at one moment. Memberships are keyed by (userId, courseId). */
  datatype Tables = Tables(
    users: map<string, User>,
    courses: map<string, string>,
    memberships: map<(string, string), string>,
    entries: map<string, Entry>,
    artifacts: map<string, Artifact>,
    feedback: map<string, Feedback>,
    markers: map<string, Marker>,
    refreshTokens: map<string, RefreshRecord>)

  /** A feedback row points at an existing entry or an existing artifact. */
  predicate TargetExists(f: Feedback, entries: map<string, Entry>, artifacts: map<string, Artifact>) {
    (f.targetType == "entry" && f.targetId in entries) ||
    (f.targetType == "artifact" && f.targetId in artifacts)
  }

  predicate UsersKeyed(t: Tables) {
    forall id :: id in t.users ==> t.users[id].id == id
  }

  predicate MembershipsLinked(t: Tables) {
    forall k :: k in t.memberships ==> k.0 in t.users && k.1 in t.courses
  }

  predicate EntriesLinked(t: Tables) {
    forall id :: id in t.entries ==>
      t.entries[id].id == id && t.entries[id].courseId in t.courses && t.entries[id].studentId in t.users
  }

  predicate ArtifactsLinked(t: Tables) {
    forall id :: id in t.artifacts ==> t.artifacts[id].id == id && t.artifacts[id].entryId in t.entries
  }

  predicate FeedbackLinked(t: Tables) {
    forall id :: id in t.feedback ==>
      t.feedback[id].id == id && t.feedback[id].teacherId in t.users &&
      TargetExists(t.feedback[id], t.entries, t.artifacts)
  }

  predicate MarkersLinked(t: Tables) {
    forall id :: id in t.markers ==> t.markers[id].id == id && t.markers[id].feedbackId in t.feedback
  }

  predicate TokensLinked(t: Tables) {
    forall id :: id in t.refreshTokens ==> t.refreshTokens[id].id == id && t.refreshTokens[id].userId in t.users
  }

  /**
   * Every row sits under its own id and every reference points at an existing row.
   * The schema's primary and foreign keys guarantee this, except for a feedback
   * row's target (an entry or an artifact, by kind), which the routes keep.
   */
  predicate Integrity(t: Tables) {
    UsersKeyed(t) && MembershipsLinked(t) && EntriesLinked(t) && ArtifactsLinked(t) &&
    FeedbackLinked(t) && MarkersLinked(t) && TokensLinked(t)
  }

  /** Writing an entry whose course and student exist keeps every key guarantee. */
  lemma PutEntryKeepsIntegrity(t: Tables, e: Entry)
    requires Integrity(t)
    requires e.courseId in t.courses && e.studentId in t.users
    ensures Integrity(t.(entries := t.entries[e.id := e]))
  {
  }

  /** Writing an artifact whose entry exists keeps every key guarantee. */
  lemma PutArtifactKeepsIntegrity(t: Tables, a: Artifact)
    requires Integrity(t)
    requires a.entryId in t.entries
    ensures Integrity(t.(artifacts := t.artifacts[a.id := a]))
  {
  }

  /** Marker rows with pairwise distinct ids. */
  predicate DistinctIds(ms: seq<Marker>) {
    forall i, j :: 0 <= i < j < |ms| ==> ms[i].id != ms[j].id
  }

  /** The marker table after creating the given rows one by one under their ids. */
  function AddMarkers(markers: map<string, Marker>, ms: seq<Marker>): (r: map<string, Marker>)
    decreases |ms|
  {
    if |ms| == 0 then markers else AddMarkers(markers[ms[0].id := ms[0]], ms[1..])
  }

  /**
   * Creating markers keeps every existing row's key, and every row of the new table
   * is either an untouched old row or one of the created markers.
   */
  lemma {:induction false} AddMarkersRows(markers: map<string, Marker>, ms: seq<Marker>)
    ensures markers.Keys <= AddMarkers(markers, ms).Keys
    ensures forall id :: id in AddMarkers(markers, ms) ==>
      (id in markers && AddMarkers(markers, ms)[id] == markers[id]) ||
      (AddMarkers(markers, ms)[id] in ms && AddMarkers(markers, ms)[id].id == id)
    decreases |ms|
  {
    if |ms| > 0 {
      var m := markers[ms[0].id := ms[0]];
      AddMarkersRows(m, ms[1..]);
      forall id | id in AddMarkers(markers, ms)
        ensures (id in markers && AddMarkers(markers, ms)[id] == markers[id]) ||
                (AddMarkers(markers, ms)[id] in ms && AddMarkers(markers, ms)[id].id == id)
      {
        var row := AddMarkers(m, ms[1..])[id];
        if row in ms[1..] {
          assert row in ms;
        }
      }
    }
  }

  /** With distinct ids, every created marker ends up in the table under its own id. */
  lemma {:induction false} AddMarkersCreates(markers: map<string, Marker>, ms: seq<Marker>)
    requires DistinctIds(ms)
    ensures forall i :: 0 <= i < |ms| ==> ms[i].id in AddMarkers(markers, ms) && AddMarkers(markers, ms)[ms[i].id] == ms[i]
    decreases |ms|
  {
    if |ms| > 0 {
      var m := markers[ms[0].id := ms[0]];
      AddMarkersCreates(m, ms[1..]);
      AddMarkersKeeps(m, ms[1..], ms[0].id);
      forall i | 0 <= i < |ms|
        ensures ms[i].id in AddMarkers(markers, ms) && AddMarkers(markers, ms)[ms[i].id] == ms[i]
      {
        if i > 0 {
          assert ms[i] == ms[1..][i - 1];
        }
      }
    }
  }

  /** A key no created marker uses keeps its row. */
  lemma {:induction false} AddMarkersKeeps(markers: map<string, Marker>, ms: seq<Marker>, id: string)
    requires id in markers
    requires forall i :: 0 <= i < |ms| ==> ms[i].id != id
    ensures id in AddMarkers(markers, ms) && AddMarkers(markers, ms)[id] == markers[id]
    decreases |ms|
  {
    if |ms| > 0 {
      var m := markers[ms[0].id := ms[0]];
      forall i | 0 <= i < |ms[1..]| ensures ms[1..][i].id != id {
        assert ms[1..][i] == ms[i + 1];
      }
      AddMarkersKeeps(m, ms[1..], id);
    }
  }

  /** Created markers that all belong to a feedback row that exists keep every marker linked. */
  lemma {:induction false} AddMarkersKeepsLinks(markers: map<string, Marker>, feedback: map<string, Feedback>,
                                                ms: seq<Marker>, feedbackId: string)
    requires forall id :: id in markers ==> markers[id].id == id && markers[id].feedbackId in feedback
    requires feedbackId in feedback
    requires forall i :: 0 <= i < |ms| ==> ms[i].feedbackId == feedbackId
    ensures forall id :: id in AddMarkers(markers, ms) ==>
      AddMarkers(markers, ms)[id].id == id && AddMarkers(markers, ms)[id].feedbackId in feedback
  {
    AddMarkersRows(markers, ms);
    forall id | id in AddMarkers(markers, ms)
      ensures AddMarkers(markers, ms)[id].id == id && AddMarkers(markers, ms)[id].feedbackId in feedback
    {
      if AddMarkers(markers, ms)[id] in ms {
        var i :| 0 <= i < |ms| && ms[i] == AddMarkers(markers, ms)[id];
      }
    }
  }

  /**
   * Adding a feedback row by an existing user on an existing target, together with
   * markers that all belong to it, keeps every key guarantee.
   */
  lemma PutFeedbackKeepsIntegrity(t: Tables, f: Feedback, ms: seq<Marker>)
    requires Integrity(t)
    requires f.teacherId in t.users && TargetExists(f, t.entries, t.artifacts)
    requires forall i :: 0 <= i < |ms| ==> ms[i].feedbackId == f.id
    ensures Integrity(t.(feedback := t.feedback[f.id := f], markers := AddMarkers(t.markers, ms)))
  {
    var u := t.(feedback := t.feedback[f.id := f], markers := AddMarkers(t.markers, ms));
    FeedbackTablesKeepLinks(t, u);
    PutFeedbackRowLinked(t, f, u);
    assert MarkersLinked(t);
    AddMarkersKeepsLinks(t.markers, u.feedback, ms, f.id);
    assert MarkersLinked(u);
  }

  lemma PutFeedbackRowLinked(t: Tables, f: Feedback, u: Tables)
    requires FeedbackLinked(t)
    requires f.teacherId in t.users && TargetExists(f, t.entries, t.artifacts)
    requires u.feedback == t.feedback[f.id := f]
    requires u.users == t.users && u.entries == t.entries && u.artifacts == t.artifacts
    ensures FeedbackLinked(u)
  {
  }

  /** Replacing only the feedback and marker tables leaves the other guarantees as they were. */
  lemma FeedbackTablesKeepLinks(t: Tables, u: Tables)
    requires Integrity(t)
    requires u == t.(feedback := u.feedback, markers := u.markers)
    ensures UsersKeyed(u) && MembershipsLinked(u) && EntriesLinked(u) && ArtifactsLinked(u) && TokensLinked(u)
  {
  }

  class Database {
    var users: map<string, User>
    var courses: map<string, string>
    var memberships: map<(string, string), string>
    var entries: map<string, Entry>
    var artifacts: map<string, Artifact>
    var feedback: map<string, Feedback>
    var markers: map<string, Marker>
    var refreshTokens: map<string, RefreshRecord>

    function Snapshot(): Tables
      reads this
    {
      Tables(users, courses, memberships, entries, artifacts, feedback, markers, refreshTokens)
    }

    predicate Valid()
      reads this
    {
      Integrity(Snapshot())
    }

    constructor ()
      ensures Snapshot() == Tables(map[], map[], map[], map[], map[], map[], map[], map[])
      ensures Valid()
    {
      users, courses, memberships := map[], map[], map[];
      entries, artifacts, feedback, markers, refreshTokens := map[], map[], map[], map[], map[];
    }
  }

  /** The bucket's object keys. */
  class ObjectStore {
    var keys: set<string>

    constructor (keys: set<string>)
      ensures this.keys == keys
    {
      this.keys := keys;
    }
  }
}
