/**
 * The client's outbox. Offline work is recorded as queue items; a processing cycle
 * refreshes the session, takes the items that are due, performs each against the
 * server and deletes it on success, or records the error and schedules a retry with
 * exponential backoff capped at 300 seconds.
 *
 * Everything the cycle talks to (the JSON coder, the local store, the API, the file
 * upload, the clock and error descriptions) is a field of `SyncEnv`: total functions
 * that stand for the answers those components give.
 */
module Outbox {
  import opened Common
  import opened LocalModels
  import Session

  // ---------------------------------------------------------------------------
  // Task types and payloads
  // ---------------------------------------------------------------------------

  datatype TaskType =
    | CreateEntry | CreateArtifact | UploadArtifact | ConfirmArtifact
    | SubmitEntry | DeleteEntry | PostFeedback

  function TaskTypeRaw(t: TaskType): string {
    match t
    case CreateEntry => "createEntry"
    case CreateArtifact => "createArtifact"
    case UploadArtifact => "uploadArtifact"
    case ConfirmArtifact => "confirmArtifact"
    case SubmitEntry => "submitEntry"
    case DeleteEntry => "deleteEntry"
    case PostFeedback => "postFeedback"
  }

  /** `SyncTaskType(rawValue:)`: the task type with that raw value, if any. */
  function TaskTypeFromRaw(raw: string): (r: Option<TaskType>)
    ensures r.Some? ==> TaskTypeRaw(r.value) == raw
    ensures r.None? ==> forall t: TaskType :: TaskTypeRaw(t) != raw
  {
    if raw == "createEntry" then Some(CreateEntry)
    else if raw == "createArtifact" then Some(CreateArtifact)
    else if raw == "uploadArtifact" then Some(UploadArtifact)
    else if raw == "confirmArtifact" then Some(ConfirmArtifact)
    else if raw == "submitEntry" then Some(SubmitEntry)
    else if raw == "deleteEntry" then Some(DeleteEntry)
    else if raw == "postFeedback" then Some(PostFeedback)
    else None
  }

  /** A payload value as the processor sees it: a string, or anything else. */
  datatype PayloadValue = PString(s: string) | POther
  type Payload = map<string, PayloadValue>

  /** The outcome of decoding a stored payload: invalid JSON throws, a non-object is dropped. */
  datatype ParsedPayload = Malformed | NotObject | Object(fields: Payload)

  /** `payload[key] as? String ?? fallback`. */
  function StringField(p: Payload, key: string, fallback: string): (r: string)
    ensures key in p && p[key].PString? ==> r == p[key].s
    ensures !(key in p && p[key].PString?) ==> r == fallback
  {
    if key in p && p[key].PString? then p[key].s else fallback
  }

  // ---------------------------------------------------------------------------
  // The environment of a cycle
  // ---------------------------------------------------------------------------

  /** The local rows the processor reads: an entry's course, an artifact's entry and file. */
  datatype LocalArtifactRow = LocalArtifactRow(entryId: string, localPath: string)

  /** One request to the server API, with the arguments that identify it. */
  datatype ApiCall =
    | PostEntryCall(courseId: string, entryId: string)
    | PostArtifactCall(entryId: string, artifactId: string)
    | ConfirmCall(artifactId: string)
    | SubmitCall(entryId: string)
    | DeleteCall(entryId: string)
    | FeedbackCall(targetType: string, targetId: string, status: FeedbackStatus, commentsText: string)

  /** Why processing an item threw. */
  datatype SyncError =
    | MalformedPayload
    | NotFound(id: string)             // the local row is missing (code 404)
    | Remote(description: string)       // an API call or the upload transport threw
    | BadServerResponse                 // the upload answered with a status of 400 or more

  datatype Outcome = Done | Threw(cause: SyncError)

  datatype SyncEnv = SyncEnv(
    serialize: Payload -> Option<string>,
    parse: string -> ParsedPayload,
    entries: map<string, string>,                     // local entry id -> course id
    artifacts: map<string, LocalArtifactRow>,
    api: (string, ApiCall) -> Option<string>,         // (token, call) -> error thrown, if any
    presign: (string, string) -> Result<string, string>, // (token, artifact id) -> upload URL
    isValidUrl: string -> bool,
    upload: (string, string) -> Result<int, string>,  // (URL, file path) -> HTTP status
    refresh: string -> Option<Session.TokenPair>,
    describe: SyncError -> string,
    failedAt: (int, string) -> int)                   // (cycle time, item id) -> clock reading when its failure is recorded

  function Call(env: SyncEnv, token: string, call: ApiCall): (r: Outcome)
    ensures r == Done <==> env.api(token, call).None?
  {
    match env.api(token, call)
    case None => Done
    case Some(d) => Threw(Remote(d))
  }

  /** Presign, then PUT the file; an upload URL that does not parse is silently skipped. */
  function Upload(env: SyncEnv, token: string, artifactId: string, localPath: string): (r: Outcome)
    ensures r == Done <==>
      env.presign(token, artifactId).Ok? &&
      (!env.isValidUrl(env.presign(token, artifactId).value) ||
       (env.upload(env.presign(token, artifactId).value, localPath).Ok? &&
        env.upload(env.presign(token, artifactId).value, localPath).value < 400))
  {
    match env.presign(token, artifactId)
    case Err(d) => Threw(Remote(d))
    case Ok(url) =>
      if !env.isValidUrl(url) then Done
      else match env.upload(url, localPath)
        case Err(d) => Threw(Remote(d))
        case Ok(status) => if status >= 400 then Threw(BadServerResponse) else Done
  }

  /** Performs one task of a known type with its decoded payload. */
  function Run(env: SyncEnv, t: TaskType, p: Payload, token: string): (r: Outcome)
    ensures !RowsPresent(env, t, p) ==> r.Threw? && r.cause.NotFound?
    ensures r.Threw? ==> !r.cause.MalformedPayload?
  {
    match t
    case CreateEntry =>
      var entryId := StringField(p, "entryId", "");
      if entryId !in env.entries then Threw(NotFound(entryId))
      else Call(env, token, PostEntryCall(env.entries[entryId], entryId))
    case CreateArtifact =>
      var artifactId := StringField(p, "artifactId", "");
      if artifactId !in env.artifacts then Threw(NotFound(artifactId))
      else Call(env, token, PostArtifactCall(env.artifacts[artifactId].entryId, artifactId))
    case UploadArtifact =>
      var artifactId := StringField(p, "artifactId", "");
      if artifactId !in env.artifacts then Threw(NotFound(artifactId))
      else Upload(env, token, artifactId, env.artifacts[artifactId].localPath)
    case ConfirmArtifact =>
      Call(env, token, ConfirmCall(StringField(p, "artifactId", "")))
    case SubmitEntry =>
      Call(env, token, SubmitCall(StringField(p, "entryId", "")))
    case DeleteEntry =>
      Call(env, token, DeleteCall(StringField(p, "entryId", "")))
    case PostFeedback =>
      Call(env, token, FeedbackCall(StringField(p, "targetType", "entry"), StringField(p, "targetId", ""),
                                    FeedbackStatusOf(StringField(p, "status", "ok")),
                                    StringField(p, "commentsText", "")))
  }

  /**
   * Processes one stored task. Invalid JSON throws and is retried; a payload that is
   * not an object, or a task type the client does not know, counts as done.
   */
  function Process(env: SyncEnv, kind: string, payloadJSON: string, token: string): (r: Outcome)
    ensures env.parse(payloadJSON).Malformed? ==> r == Threw(MalformedPayload)
    ensures env.parse(payloadJSON).NotObject? ==> r == Done
    ensures TaskTypeFromRaw(kind).None? && !env.parse(payloadJSON).Malformed? ==> r == Done
    ensures r.Threw? ==> env.parse(payloadJSON).Malformed? || TaskTypeFromRaw(kind).Some?
  {
    match env.parse(payloadJSON)
    case Malformed => Threw(MalformedPayload)
    case NotObject => Done
    case Object(p) =>
      match TaskTypeFromRaw(kind)
      case None => Done
      case Some(t) => Run(env, t, p, token)
  }

  /** The server and the upload host accept every request. */
  ghost predicate Healthy(env: SyncEnv) {
    (forall token, call :: env.api(token, call).None?) &&
    (forall token, id :: env.presign(token, id).Ok?) &&
    (forall url, path :: env.upload(url, path).Ok? && env.upload(url, path).value < 400)
  }

  /** The local rows a task of type `t` looks up are present. */
  predicate RowsPresent(env: SyncEnv, t: TaskType, p: Payload) {
    (t == CreateEntry ==> StringField(p, "entryId", "") in env.entries) &&
    (t in {CreateArtifact, UploadArtifact} ==> StringField(p, "artifactId", "") in env.artifacts)
  }

  /** With a healthy network, a task fails only when its payload is invalid JSON or its local row is missing. */
  lemma HealthyTaskSucceeds(env: SyncEnv, kind: string, payloadJSON: string, token: string)
    requires Healthy(env)
    ensures Process(env, kind, payloadJSON, token).Threw? <==>
      env.parse(payloadJSON).Malformed? ||
      (env.parse(payloadJSON).Object? && TaskTypeFromRaw(kind).Some? &&
       !RowsPresent(env, TaskTypeFromRaw(kind).value, env.parse(payloadJSON).fields))
  {
    match env.parse(payloadJSON)
    case Malformed =>
    case NotObject =>
    case Object(p) =>
      match TaskTypeFromRaw(kind)
      case None =>
      case Some(t) =>
        var artifactId := StringField(p, "artifactId", "");
        if t == UploadArtifact && artifactId in env.artifacts {
          assert env.presign(token, artifactId).Ok?;
          var url := env.presign(token, artifactId).value;
          var path := env.artifacts[artifactId].localPath;
          assert env.upload(url, path).Ok? && env.upload(url, path).value < 400;
        }
  }

  /** A task enqueued with a payload the coder reads back runs that task on that payload. */
  lemma EnqueuedTaskRuns(env: SyncEnv, t: TaskType, p: Payload, token: string)
    requires env.serialize(p).Some? && env.parse(env.serialize(p).value) == Object(p)
    ensures Process(env, TaskTypeRaw(t), env.serialize(p).value, token) == Run(env, t, p, token)
  {
    assert TaskTypeFromRaw(TaskTypeRaw(t)) == Some(t);
  }

  // ---------------------------------------------------------------------------
  // Backoff and the effect of a cycle on the queue
  // ---------------------------------------------------------------------------

  function Pow2(n: nat): (r: nat)
    ensures r >= 1
  {
    if n == 0 then 1 else 2 * Pow2(n - 1)
  }

  /** Seconds until the next attempt after the `retryCount`-th failure. */
  function BackoffDelay(retryCount: nat): (d: nat)
    ensures 1 <= d <= 300
  {
    Min(Pow2(retryCount), 300)
  }

  lemma {:induction false} Pow2Monotone(m: nat, n: nat)
    requires m <= n
    ensures Pow2(m) <= Pow2(n)
  {
    if m < n {
      Pow2Monotone(m, n - 1);
    }
  }

  /** The delay never shrinks as failures accumulate, and from the ninth failure on it is 300 seconds. */
  lemma BackoffGrowsToCap(m: nat, n: nat)
    requires m <= n
    ensures BackoffDelay(m) <= BackoffDelay(n)
    ensures n >= 9 ==> BackoffDelay(n) == 300
  {
    Pow2Monotone(m, n);
    if n >= 9 {
      Pow2Monotone(9, n);
      assert Pow2(9) == 512;
    }
  }

  /** The first failures wait 2, 4, 8, ... seconds. */
  lemma FirstDelays()
    ensures BackoffDelay(1) == 2 && BackoffDelay(2) == 4 && BackoffDelay(8) == 256
  {
    assert Pow2(8) == 256;
  }

  /** Whether an item is picked by a cycle at time `now`. */
  predicate Ready(item: QueueItem, now: int) {
    item.status == "pending" && (item.nextAttemptAt.None? || item.nextAttemptAt.value <= now)
  }

  function ReadyIds(q: map<string, QueueItem>, now: int): (r: set<string>)
    ensures r <= q.Keys
    ensures forall id :: id in q ==> (id in r <==> Ready(q[id], now))
  {
    set id | id in q && Ready(q[id], now)
  }

  /** The failure bookkeeping of one item: count it, keep the error, schedule the retry. */
  function AfterFailure(item: QueueItem, error: string, at: int): (r: QueueItem)
    ensures r.retryCount == item.retryCount + 1 && r.lastError == Some(error)
    ensures r.nextAttemptAt.Some? && at + 1 <= r.nextAttemptAt.value <= at + 300
    ensures r.id == item.id && r.kind == item.kind && r.payloadJSON == item.payloadJSON
    ensures r.status == item.status && r.createdAt == item.createdAt
  {
    item.(retryCount := item.retryCount + 1,
          lastError := Some(error),
          nextAttemptAt := Some(at + BackoffDelay(item.retryCount + 1)))
  }

  /** The queue once the items in `done` have been processed: successes deleted, failures rescheduled. */
  function Settled(env: SyncEnv, token: string, now: int, q: map<string, QueueItem>, done: set<string>)
    : (r: map<string, QueueItem>)
    ensures r.Keys <= q.Keys
    ensures forall id :: id in q && id !in done ==> id in r && r[id] == q[id]
    ensures forall id :: id in q && id in done ==>
      (id in r <==> Process(env, q[id].kind, q[id].payloadJSON, token).Threw?)
  {
    map id | id in q && (id !in done || Process(env, q[id].kind, q[id].payloadJSON, token).Threw?) ::
      if id in done then
        AfterFailure(q[id], env.describe(Process(env, q[id].kind, q[id].payloadJSON, token).cause),
                     env.failedAt(now, id))
      else q[id]
  }

  /** The queue after a full cycle at time `now` with access token `token`. */
  function Drained(env: SyncEnv, token: string, now: int, q: map<string, QueueItem>): (r: map<string, QueueItem>)
    ensures forall id :: id in q && !Ready(q[id], now) ==> id in r && r[id] == q[id]
  {
    Settled(env, token, now, q, ReadyIds(q, now))
  }

  /** What a cycle does to each item: untouched when not due, gone on success, rescheduled on failure. */
  lemma DrainedItem(env: SyncEnv, token: string, now: int, q: map<string, QueueItem>, id: string)
    requires id in q
    ensures !Ready(q[id], now) ==> id in Drained(env, token, now, q) && Drained(env, token, now, q)[id] == q[id]
    ensures Ready(q[id], now) ==>
      (id in Drained(env, token, now, q) <==> Process(env, q[id].kind, q[id].payloadJSON, token).Threw?)
    ensures id in Drained(env, token, now, q) && Ready(q[id], now) ==>
      var after := Drained(env, token, now, q)[id];
      after.retryCount == q[id].retryCount + 1 &&
      after.lastError == Some(env.describe(Process(env, q[id].kind, q[id].payloadJSON, token).cause)) &&
      after.nextAttemptAt == Some(env.failedAt(now, id) + BackoffDelay(q[id].retryCount + 1)) &&
      after.id == q[id].id && after.kind == q[id].kind && after.payloadJSON == q[id].payloadJSON &&
      after.status == q[id].status && after.createdAt == q[id].createdAt
  {
  }

  /** A cycle never adds items. */
  lemma DrainedShrinks(env: SyncEnv, token: string, now: int, q: map<string, QueueItem>)
    ensures Drained(env, token, now, q).Keys <= q.Keys
  {
  }

  /** The queue invariant: each item is stored under its own id and is pending. */
  predicate WellFormed(q: map<string, QueueItem>) {
    forall id :: id in q ==> q[id].id == id && q[id].status == "pending"
  }

  lemma DrainedWellFormed(env: SyncEnv, token: string, now: int, q: map<string, QueueItem>)
    requires WellFormed(q)
    ensures WellFormed(Drained(env, token, now, q))
  {
  }

  /**
   * When the cycle's failures are stamped no earlier than the cycle's own time (the
   * clock does not run backwards), a second cycle at the same time finds nothing
   * due: draining is idempotent.
   */
  lemma DrainIdempotent(env: SyncEnv, token: string, now: int, q: map<string, QueueItem>)
    requires forall id :: env.failedAt(now, id) >= now
    ensures Drained(env, token, now, Drained(env, token, now, q)) == Drained(env, token, now, q)
  {
    var d := Drained(env, token, now, q);
    forall id | id in d
      ensures !Ready(d[id], now)
    {
      DrainedItem(env, token, now, q, id);
      assert env.failedAt(now, id) >= now;
    }
    assert ReadyIds(d, now) == {};
    var d2 := Drained(env, token, now, d);
    assert d2.Keys == d.Keys;
    assert forall id :: id in d ==> d2[id] == d[id];
  }

  /**
   * Successive cycles, one per entry of `nows`, all with the same environment; each
   * cycle runs with the access token its own refresh left (`tokens[i]` in cycle `i`).
   */
  function Cycles(env: SyncEnv, tokens: seq<string>, nows: seq<int>, q: map<string, QueueItem>)
    : map<string, QueueItem>
    requires |tokens| == |nows|
    decreases |nows|
  {
    if |nows| == 0 then q else Cycles(env, tokens[1..], nows[1..], Drained(env, tokens[0], nows[0], q))
  }

  /**
   * An item that keeps failing, whatever token each cycle holds, stays queued, keeps
   * its task and payload, and gains exactly one retry per cycle when it is due at the
   * first cycle and every later cycle comes no earlier than the retry the previous
   * cycle scheduled (the failure's stamp in that cycle plus the back-off for the new
   * retry count).
   */
  lemma {:induction false} FailingItemRetries(env: SyncEnv, tokens: seq<string>, nows: seq<int>,
                                             q: map<string, QueueItem>, id: string)
    requires |tokens| == |nows|
    requires id in q && q[id].status == "pending"
    requires forall i :: 0 <= i < |tokens| ==> Process(env, q[id].kind, q[id].payloadJSON, tokens[i]).Threw?
    requires q[id].nextAttemptAt.None? || (|nows| > 0 ==> q[id].nextAttemptAt.value <= nows[0])
    requires forall i :: 0 <= i < |nows| - 1 ==>
      nows[i + 1] >= env.failedAt(nows[i], id) + BackoffDelay(q[id].retryCount + i + 1)
    ensures id in Cycles(env, tokens, nows, q)
    ensures Cycles(env, tokens, nows, q)[id].retryCount == q[id].retryCount + |nows|
    ensures Cycles(env, tokens, nows, q)[id].kind == q[id].kind
    ensures Cycles(env, tokens, nows, q)[id].payloadJSON == q[id].payloadJSON
    decreases |nows|
  {
    if |nows| > 0 {
      var d := Drained(env, tokens[0], nows[0], q);
      assert Ready(q[id], nows[0]);
      DrainedItem(env, tokens[0], nows[0], q, id);
      var rest := nows[1..];
      forall i | 0 <= i < |rest| - 1
        ensures rest[i + 1] >= env.failedAt(rest[i], id) + BackoffDelay(d[id].retryCount + i + 1)
      {
        assert rest[i] == nows[i + 1] && rest[i + 1] == nows[i + 2];
      }
      forall i | 0 <= i < |tokens[1..]|
        ensures Process(env, d[id].kind, d[id].payloadJSON, tokens[1..][i]).Threw?
      {
        assert tokens[1..][i] == tokens[i + 1];
      }
      FailingItemRetries(env, tokens[1..], rest, d, id);
    }
  }

  /** An item whose task succeeds is gone after the first cycle that finds it due. */
  lemma SucceedingItemLeaves(env: SyncEnv, token: string, now: int, q: map<string, QueueItem>, id: string)
    requires id in q && Ready(q[id], now)
    requires Process(env, q[id].kind, q[id].payloadJSON, token) == Done
    ensures id !in Drained(env, token, now, q)
  {
    DrainedItem(env, token, now, q, id);
  }

  // ---------------------------------------------------------------------------
  // The manager
  // ---------------------------------------------------------------------------

  class SyncManager {
    var queue: map<string, QueueItem>
    const auth: Session.AuthManager

    predicate Valid()
      reads this
    {
      WellFormed(queue)
    }

    constructor (auth: Session.AuthManager, stored: map<string, QueueItem>)
      ensures this.auth == auth && queue == stored
    {
      this.auth := auth;
      queue := stored;
    }

    /** Stores a new pending task; a payload that cannot be serialised is dropped. */
    method Enqueue(env: SyncEnv, t: TaskType, payload: Payload, freshId: string, now: int)
      modifies this`queue
      ensures env.serialize(payload).None? ==> queue == old(queue)
      ensures env.serialize(payload).Some? ==>
        queue == old(queue)[freshId := NewQueueItem(freshId, TaskTypeRaw(t), env.serialize(payload).value, now)]
      ensures env.serialize(payload).Some? ==> freshId in queue && Ready(queue[freshId], now)
      ensures old(Valid()) ==> Valid()
    {
      var json := env.serialize(payload);
      if json.None? {
        return;
      }
      var item := NewQueueItem(freshId, TaskTypeRaw(t), json.value, now);
      queue := queue[freshId := item];
    }

    /**
     * The due items, each once, in an order the store does not specify; a fetch that
     * throws (`fetchOk` false) is read as no items at all.
     */
    method FetchReady(now: int, fetchOk: bool) returns (ids: seq<string>)
      ensures forall a, b :: 0 <= a < b < |ids| ==> ids[a] != ids[b]
      ensures forall id :: id in ids <==> fetchOk && id in ReadyIds(queue, now)
    {
      ids := [];
      if !fetchOk {
        return;
      }
      var remaining := ReadyIds(queue, now);
      while remaining != {}
        invariant forall a, b :: 0 <= a < b < |ids| ==> ids[a] != ids[b]
        invariant forall id :: id in ids ==> id !in remaining
        invariant forall id :: id in ReadyIds(queue, now) <==> id in ids || id in remaining
        decreases |remaining|
      {
        var id :| id in remaining;
        ids := ids + [id];
        remaining := remaining - {id};
      }
    }

    /**
     * One cycle: refresh the session; without a session nothing happens; a fetch
     * that throws (`fetchOk` false) processes nothing; otherwise every due item is
     * processed with the refreshed access token.
     */
    method ProcessQueue(env: SyncEnv, now: int, fetchOk: bool)
      modifies this, auth
      ensures old(auth.session).None? ==> auth.session == old(auth.session)
      ensures auth.session.None? || !fetchOk ==> queue == old(queue)
      ensures auth.session.Some? && fetchOk ==> queue == Drained(env, auth.session.value.accessToken, now, old(queue))
      ensures old(Valid()) ==> Valid()
    {
      auth.RefreshIfNeeded(env.refresh);
      if auth.session.None? {
        return;
      }
      var token := auth.session.value.accessToken;
      var ids := FetchReady(now, fetchOk);
      ghost var q0 := queue;
      ProcessItems(env, token, now, ids);
      if fetchOk {
        assert (set id | id in ids) == ReadyIds(q0, now);
        if old(Valid()) {
          DrainedWellFormed(env, token, now, q0);
        }
      } else {
        assert (set id | id in ids) == {};
      }
    }

    /** Processes the fetched items one after the other, each against the queue as fetched. */
    method ProcessItems(env: SyncEnv, token: string, now: int, ids: seq<string>)
      requires forall a, b :: 0 <= a < b < |ids| ==> ids[a] != ids[b]
      requires forall id :: id in ids ==> id in queue
      modifies this`queue
      ensures queue == Settled(env, token, now, old(queue), set id | id in ids)
    {
      ghost var done: set<string> := {};
      var i := 0;
      while i < |ids|
        invariant 0 <= i <= |ids|
        invariant done == set id | id in ids[..i]
        invariant queue == Settled(env, token, now, old(queue), done)
      {
        var id := ids[i];
        SettleStep(env, token, now, old(queue), done, id);
        var item := queue[id];
        var outcome := Process(env, item.kind, item.payloadJSON, token);
        if outcome.Done? {
          queue := queue - {id};
        } else {
          queue := queue[id := AfterFailure(item, env.describe(outcome.cause), env.failedAt(now, id))];
        }
        done := done + {id};
        assert ids[..i + 1] == ids[..i] + [id];
        i := i + 1;
      }
      assert ids[..i] == ids;
    }
  }

  /** Processing one more due item changes the settled queue at that item only. */
  lemma SettleStep(env: SyncEnv, token: string, now: int, q: map<string, QueueItem>, done: set<string>, id: string)
    requires id in q && id !in done
    ensures var s := Settled(env, token, now, q, done);
      var outcome := Process(env, q[id].kind, q[id].payloadJSON, token);
      id in s && s[id] == q[id] &&
      Settled(env, token, now, q, done + {id}) ==
        if outcome.Done? then s - {id}
        else s[id := AfterFailure(q[id], env.describe(outcome.cause), env.failedAt(now, id))]
  {
    var s := Settled(env, token, now, q, done);
    var outcome := Process(env, q[id].kind, q[id].payloadJSON, token);
    var s2 := Settled(env, token, now, q, done + {id});
    var expected := if outcome.Done? then s - {id}
      else s[id := AfterFailure(q[id], env.describe(outcome.cause), env.failedAt(now, id))];
    assert s2.Keys == expected.Keys;
    assert forall k :: k in s2 ==> s2[k] == expected[k];
  }
}
