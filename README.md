# Resonance: a verified model of the practice-journal core

Resonance is a practice journal for music students and their teachers. A student
records practice entries (a date, a goal, tags, notes) with audio or video
artifacts on an iOS client that works offline. An outbox queue later pushes
everything to a Fastify/Prisma server. The server owns courses, memberships,
entries, artifacts, teacher feedback with timed markers, and rotating
refresh tokens. Teachers review submitted entries and leave feedback.

This project models, in Dafny, the logic of both sides.

Client (Swift):

- the local records and their raw-value enums (`LocalModels`);
- the tag codec that stores an entry's tags as one string (`TagCodec`);
- the keychain-backed session (`Session`);
- the outbox queue and its retry schedule (`Outbox`);
- the iCalendar reader used for lesson calendars (`ICal`).

Server (TypeScript):

- configuration (`Config`);
- JavaScript values and the request validators (`Validation`);
- the tables and their key guarantees (`Store`);
- token issue and rotation, plus the development login (`TokenAuth`);
- the bearer-token and access checks (`Access`);
- the entry, artifact and feedback routes (`EntryRoutes`, `ArtifactRoutes`, `FeedbackRoutes`).

Stateful parts become classes or methods over a `Database` whose
`Snapshot()` is a value of all tables:

- the client's managers and records;
- the server's handlers;
- the one-time code table.

Each handler method's answer and new tables are proved equal to a pure function of
the old snapshot. Entry deletion also depends on the storage oracle's answers, and
after a storage failure the bucket's contents are only bounded. The properties
that matter are proved about those functions, for example:

- the tag round trip;
- that deletion cascades and keeps every key guarantee;
- single-use refresh tokens;
- the retry backoff;
- the access rules.

Oracles stand in for everything the code calls but does not define:

- JWT signing and signature checking (the expiry test is modelled);
- SHA-256 (an injective constructor);
- JSON (de)serialisation on the client;
- network requests;
- object storage;
- date parsing;
- id generators.

Oracles are passed as parameters.

Where the code and its design notes disagree, the model follows the code:

- The outbox fetches due items in no particular order; there is no FIFO
  order.
- A payload that is not valid JSON throws and is retried forever. It is not
  dropped.
- The client's refresh attempts a refresh whenever a session exists. It does
  not check token expiry first.
- An id already in use, on entry, artifact or feedback creation, reaches the
  generic error handler as a 500 internal error, not a conflict.
- A submitted entry can gain new artifacts. Presigning an uploaded artifact moves
  it back to uploading. An entry can be submitted again.
- Confirming an upload needs only course membership; there is no ownership test.
- Feedback may target a soft-deleted entry, because the target lookup ignores
  `deletedAt`.
- The `INVALID_TARGET` branch of `POST /feedback` cannot be reached after the
  target type has passed the enum check.

## Model

| member | source | states |
|---|---|---|
| LocalModels.FeedbackStatusFromRaw | ios/ResonanceApp/Sources/Models.swift:21-25 | a raw value decodes to the case with that raw value, and to nothing when no case has it |
| LocalModels.EntryStatusOf | ios/ResonanceApp/Sources/Models.swift:81-84 | the stored status reads back as its case; unrecognised text reads as draft (submitted iff the text is "submitted") |
| LocalModels.ArtifactTypeOf | ios/ResonanceApp/Sources/Models.swift:132-135 | the stored type reads back as its case; anything but "video" reads as audio |
| LocalModels.UploadStateOf | ios/ResonanceApp/Sources/Models.swift:137-140 | the stored upload state reads back as its case; unrecognised text reads as pending |
| LocalModels.FeedbackStatusOf | ios/ResonanceApp/Sources/Models.swift:165-168 | a recognised status reads back with the same raw value, anything else as ok |
| LocalModels.FeedbackRawValues | ios/ResonanceApp/Sources/Models.swift:21-25 | the client's feedback raw values are exactly ok, needs_revision and next_goal |
| LocalModels.LocalArtifact.constructor | ios/ResonanceApp/Sources/Models.swift:120-130 | a new artifact has the given fields, is pending and has no storage key or remote URL |
| LocalModels.LocalArtifact.SetKind | ios/ResonanceApp/Sources/Models.swift:132-135 | setting the type stores its raw value and reads back the same case |
| LocalModels.LocalArtifact.SetUploadStatus | ios/ResonanceApp/Sources/Models.swift:137-140 | setting the upload state stores its raw value and reads back the same case |
| LocalModels.LocalFeedback.constructor | ios/ResonanceApp/Sources/Models.swift:154-163 | a new feedback record has the given fields, status and no markers |
| LocalModels.LocalFeedback.SetStatus | ios/ResonanceApp/Sources/Models.swift:165-168 | setting the status stores its raw value and reads back the same case |
| LocalModels.LocalPracticeEntry.constructor | ios/ResonanceApp/Sources/Models.swift:57-79 | a new entry stores its tags encoded and reads the same tags back, with the given status, not deleted, with no artifacts or feedback |
| LocalModels.LocalPracticeEntry.SetStatus | ios/ResonanceApp/Sources/Models.swift:81-84 | setting the status stores its raw value and reads back the same case |
| LocalModels.LocalPracticeEntry.SetTags | ios/ResonanceApp/Sources/Models.swift:86-89 | setting the tags stores their encoding and reads back exactly the same list |
| LocalModels.NewQueueItem | ios/ResonanceApp/Sources/Models.swift:195-203 | a new outbox item is pending, never tried, with no error and no scheduled retry |
| TagCodec.EncodeTags | ios/ResonanceApp/Sources/Models.swift:92-98 | the stored text is always a bracketed JSON array |
| TagCodec.StringRoundTrip | ios/ResonanceApp/Sources/Models.swift:92-106 | one tag written as an escaped JSON string is read back exactly, leaving the text after it |
| TagCodec.ItemsRoundTrip | ios/ResonanceApp/Sources/Models.swift:92-106 | the encoded elements of a non-empty list parse back to that list |
| TagCodec.TagsRoundTrip | ios/ResonanceApp/Sources/Models.swift:92-106 | decoding the encoding of any tag list, commas, quotes and control characters included, gives the list back |
| TagCodec.LegacyCommaText | ios/ResonanceApp/Sources/Models.swift:100-106 | comma-separated text of non-empty comma-free tags that does not look like JSON decodes to those tags |
| TagCodec.DecodeTags | ios/ResonanceApp/Sources/Models.swift:100-106 | a JSON array of strings decodes to its elements; any other text decodes to non-empty, comma-free pieces |
| TagCodec.DecodeCommaText | ios/ResonanceApp/Sources/Models.swift:100-106 | the fallback drops empty pieces: "a,,b" gives a and b |
| TagCodec.CommaTagsExample | ios/ResonanceApp/Tests/ResonanceAppTests.swift:7-24 | tags containing commas survive the round trip, as the unit test expects |
| Session.SessionFrom | ios/ResonanceApp/Sources/AuthManager.swift:25-35 | a session is read exactly when all five keychain entries exist, with each field taken from its entry |
| Session.StoreThenLoad | ios/ResonanceApp/Sources/AuthManager.swift:92-99 | a persisted session is read back unchanged, and other keychain entries are untouched |
| Session.RemoveThenLoad | ios/ResonanceApp/Sources/AuthManager.swift:65-72 | after signing out no session can be read, and other keychain entries are untouched |
| Session.AuthManager.constructor | ios/ResonanceApp/Sources/AuthManager.swift:20-23 | the manager starts with the session its keychain holds |
| Session.AuthManager.LoadSession | ios/ResonanceApp/Sources/AuthManager.swift:25-35 | the in-memory session becomes the one the keychain holds |
| Session.AuthManager.PersistSession | ios/ResonanceApp/Sources/AuthManager.swift:92-99 | the keychain holds the session's five entries and the in-memory session is that session |
| Session.AuthManager.SignOut | ios/ResonanceApp/Sources/AuthManager.swift:65-72 | the five entries are removed and no session remains |
| Session.AuthManager.RefreshIfNeeded | ios/ResonanceApp/Sources/AuthManager.swift:74-90 | without a session nothing happens; a successful refresh persists the new tokens with the old identity; a failed refresh signs out |
| Outbox.TaskTypeFromRaw | ios/ResonanceApp/Sources/SyncManager.swift:4-12 | a stored type decodes to the task with that raw value, or to nothing when none has it |
| Outbox.StringField | ios/ResonanceApp/Sources/SyncManager.swift:61-64 | a payload field is its string value, or the fallback when absent or not a string |
| Outbox.Run | ios/ResonanceApp/Sources/SyncManager.swift:66-104 | a task whose local row is missing throws not-found; a task never throws for a malformed payload |
| Outbox.Call | ios/ResonanceApp/Sources/SyncManager.swift:66-104 | a request succeeds exactly when the server returns no error |
| Outbox.Upload | ios/ResonanceApp/Sources/SyncManager.swift:123-134 | an upload succeeds when presign and PUT both succeed or the returned URL does not parse |
| Outbox.Process | ios/ResonanceApp/Sources/SyncManager.swift:60-105 | invalid JSON throws; a non-object payload or an unknown type counts as done; nothing else throws without a known type |
| Outbox.HealthyTaskSucceeds | ios/ResonanceApp/Sources/SyncManager.swift:60-121 | with a healthy network a task fails iff its payload is invalid JSON or a local row it needs is missing |
| Outbox.EnqueuedTaskRuns | ios/ResonanceApp/Sources/SyncManager.swift:29-35 | an enqueued task is processed as that task with that payload |
| Outbox.BackoffDelay | ios/ResonanceApp/Sources/SyncManager.swift:53 | the retry delay is between 1 and 300 seconds |
| Outbox.BackoffGrowsToCap | ios/ResonanceApp/Sources/SyncManager.swift:53 | the delay never shrinks as failures accumulate and is 300 seconds from the ninth failure on |
| Outbox.FirstDelays | ios/ResonanceApp/Sources/SyncManager.swift:53 | the first failures wait 2, 4 and, at the eighth, 256 seconds |
| Outbox.AfterFailure | ios/ResonanceApp/Sources/SyncManager.swift:51-55 | a failure adds one retry, records the error and schedules the next attempt 1 to 300 seconds after the failure; id, type, payload, status and creation time are kept |
| Outbox.ReadyIds | ios/ResonanceApp/Sources/SyncManager.swift:40-44 | an item is fetched iff it is pending and has no retry time or one already due |
| Outbox.Settled | ios/ResonanceApp/Sources/SyncManager.swift:46-56 | settling never adds items; items not processed are kept, and a processed item stays iff its task threw |
| Outbox.Drained | ios/ResonanceApp/Sources/SyncManager.swift:37-56 | a cycle keeps every item that is not due unchanged |
| Outbox.DrainedItem | ios/ResonanceApp/Sources/SyncManager.swift:46-56 | per item, a cycle leaves items that are not due, deletes successes and reschedules failures with one more retry |
| Outbox.DrainedShrinks | ios/ResonanceApp/Sources/SyncManager.swift:46-56 | a cycle never adds items |
| Outbox.DrainedWellFormed | ios/ResonanceApp/Sources/SyncManager.swift:46-56 | a cycle keeps every item under its own id and pending |
| Outbox.DrainIdempotent | ios/ResonanceApp/Sources/SyncManager.swift:46-56 | when the cycle's failure stamps are no earlier than its own time, a second cycle at that time finds nothing due and changes nothing |
| Outbox.FailingItemRetries | ios/ResonanceApp/Sources/SyncManager.swift:37-56 | an item that keeps failing under whatever access token each cycle's refresh left, due at the first cycle, with each later cycle no earlier than the retry the previous one scheduled from its own failure stamp, stays queued with its task and payload and gains one retry per cycle |
| Outbox.SucceedingItemLeaves | ios/ResonanceApp/Sources/SyncManager.swift:46-56 | a due item whose task succeeds is gone after the cycle |
| Outbox.SettleStep | ios/ResonanceApp/Sources/SyncManager.swift:46-56 | settling one more item changes the queue at that item only |
| Outbox.SyncManager.constructor | ios/ResonanceApp/Sources/SyncManager.swift:21-27 | the manager starts with its session source and the stored queue |
| Outbox.SyncManager.Enqueue | ios/ResonanceApp/Sources/SyncManager.swift:29-35 | a serialisable payload adds one due item with the task's raw type; otherwise the queue is unchanged |
| Outbox.SyncManager.FetchReady | ios/ResonanceApp/Sources/SyncManager.swift:40-44 | the fetched ids are distinct and are exactly the due ones; a fetch that throws yields none |
| Outbox.SyncManager.ProcessQueue | ios/ResonanceApp/Sources/SyncManager.swift:37-58 | after the refresh, without a session or when the fetch throws the queue is untouched, otherwise it becomes the drained queue |
| Outbox.SyncManager.ProcessItems | ios/ResonanceApp/Sources/SyncManager.swift:46-56 | processing the fetched ids one by one settles exactly those items |
| ICal.UnfoldLines | ios/ResonanceApp/Sources/ICalParser.swift:49-66 | the loop computes the unfolded logical lines, none of them empty |
| ICal.UnfoldRoundTrip | ios/ResonanceApp/Sources/ICalParser.swift:49-66 | folded lines written one per line feed unfold back to the logical lines |
| ICal.Property | ios/ResonanceApp/Sources/ICalParser.swift:38-41 | a line is a property only with a non-empty value after its first colon |
| ICal.PropertyOfSimpleLine | ios/ResonanceApp/Sources/ICalParser.swift:38-41 | `NAME:value` yields that name and value |
| ICal.PropertyOfParameterisedLine | ios/ResonanceApp/Sources/ICalParser.swift:38-41 | `NAME;PARAMS:value` yields the bare name and the value |
| ICal.ParseDate | ios/ResonanceApp/Sources/ICalParser.swift:68-83 | with every Z removed, 8 characters are read as a date, 15 or more as a date-time, anything else fails |
| ICal.UtcSuffixIgnored | ios/ResonanceApp/Sources/ICalParser.swift:68-83 | a trailing Z changes nothing: the value is read in local time |
| ICal.EventOf | ios/ResonanceApp/Sources/ICalParser.swift:25-33 | an event is emitted iff summary, start and end exist and both dates parse, with the UID or a generated id |
| ICal.Parse | ios/ResonanceApp/Sources/ICalParser.swift:12-47 | the loop's events are those of the line-by-line fold over the unfolded lines |
| ICal.Step | ios/ResonanceApp/Sources/ICalParser.swift:18-43 | BEGIN enters an event with no properties; END leaves it with its properties kept; only END may append, at most one event; outside an event any other line changes nothing |
| ICal.StepAll | ios/ResonanceApp/Sources/ICalParser.swift:18-44 | the events only grow |
| ICal.OutsideLinesIgnored | ios/ResonanceApp/Sources/ICalParser.swift:37-43 | outside an event, lines other than BEGIN and END change nothing |
| ICal.InsideLinesCollect | ios/ResonanceApp/Sources/ICalParser.swift:37-43 | inside an event, lines other than BEGIN and END only record their properties, later values overwriting earlier ones |
| ICal.BeginResets | ios/ResonanceApp/Sources/ICalParser.swift:19-23 | after BEGIN the parse goes on from an open event with no properties and the same events, whatever came before |
| ICal.CompleteEventEmitted | ios/ResonanceApp/Sources/ICalParser.swift:18-44 | a BEGIN ... END block appends the event its properties make, if any, and leaves the event closed |
| ICal.SingleEventFeed | ios/ResonanceApp/Sources/ICalParser.swift:12-47 | a feed with one complete event among other lines yields exactly that event |
| ICal.OneEventFeed | ios/ResonanceApp/Tests/ResonanceAppTests.swift:39-54 | a calendar with one event carrying UID, summary, readable start and end and a location parses to exactly that one event |
| ICal.EventsPerEnd | ios/ResonanceApp/Sources/ICalParser.swift:18-44 | events are only appended, at most one per END line |
| ICal.NoBeginNoEvents | ios/ResonanceApp/Sources/ICalParser.swift:18-44 | lines without BEGIN:VEVENT emit no event |
| ICal.RepeatedEndEmitsTwice | ios/ResonanceApp/Sources/ICalParser.swift:24-36 | END does not clear the properties, so a second END emits the same event again |
| ICal.PropertyLineRecords | ios/ResonanceApp/Sources/ICalParser.swift:37-43 | inside an event a property line records its value under its bare name |
| Config.RequireEnv | server/src/config.ts:5-11 | a variable is returned iff it is set and not empty, otherwise that variable is reported missing |
| Config.AuthModeOf | server/src/config.ts:15-21 | AUTH_MODE defaults to prod only when unset; other values than dev and prod are rejected |
| Config.CorsOrigins | server/src/config.ts:34-37 | no allowed origin is empty |
| Config.CorsOriginsOfList | server/src/config.ts:34-37 | an origin list, padded with white space, reads back as exactly those origins |
| Config.TwoOriginAllowList | server/src/config.ts:34-37 | "a, b" allows exactly a and b |
| Config.CorsUnset | server/src/config.ts:34-37 | an unset or empty CORS_ORIGINS gives the empty list |
| Config.AllowedOrigin | server/src/server.ts:106 | the request origin is echoed iff the list is empty or contains it |
| Validation.Get | server/src/server.ts:547-552 | `body?.[key]` is the field of an object, otherwise undefined |
| Validation.FalsyValues | server/src/server.ts:319-324 | the falsy values are exactly undefined, null, false, 0, NaN and "" |
| Validation.RequireField | server/src/server.ts:20-25 | passes iff the value is not null or undefined, unchanged |
| Validation.RequireString | server/src/server.ts:27-32 | passes iff the value is a string |
| Validation.RequireStringField | server/src/server.ts:20-32 | a present string field passes iff it is a string |
| Validation.RequireEnum | server/src/server.ts:34-40 | passes iff the value is one of the allowed strings |
| Validation.RequireStringArray | server/src/server.ts:42-52 | passes iff the value is an array of strings, element by element |
| Validation.RequireValidDate | server/src/server.ts:54-60 | passes iff the value reads as a valid date, giving that instant |
| Validation.RequireNumber | server/src/server.ts:62-73 | passes iff the value is a number (not NaN) within the given bounds |
| Store.PutEntryKeepsIntegrity | server/src/server.ts:293-305 | writing an entry whose course and student exist keeps every key guarantee |
| Store.PutArtifactKeepsIntegrity | server/src/server.ts:432-439 | writing an artifact of an existing entry keeps every key guarantee |
| Store.AddMarkersRows | server/src/server.ts:584-590 | creating markers keeps every old key, and each row is an old row or a created marker |
| Store.AddMarkersCreates | server/src/server.ts:584-590 | with distinct ids each created marker is stored under its own id |
| Store.AddMarkersKeeps | server/src/server.ts:584-590 | a key no created marker uses keeps its row |
| Store.PutFeedbackKeepsIntegrity | server/src/server.ts:575-593 | a feedback row by an existing user on an existing target, with its markers, keeps every key guarantee |
| TokenAuth.AccessToken | server/src/auth.ts:14-21 | with a decoder that gives back what was signed, the token expires the access lifetime after the second it is issued, and while it verifies its subject is the user, its role the user's global role, and it carries no token id |
| TokenAuth.RefreshToken | server/src/auth.ts:23-30 | with a decoder that gives back what was signed, the token expires the refresh lifetime after the second it is issued, and while it verifies its subject is the user, its token id the record's id, and it carries no role |
| TokenAuth.Verify | server/src/auth.ts:32-46 | a token verifies iff its signature checks and the clock's whole second is before its `exp`, and then gives its signed claims |
| TokenAuth.ExpiredStaysExpired | server/src/auth.ts:32-46 | a token verifying at some time verified with the same claims at every earlier time |
| TokenAuth.IssuedRecord | server/src/auth.ts:48-65 | the stored refresh record names the user, is not revoked, holds the token's digest and expires after the configured days |
| TokenAuth.Issued | server/src/auth.ts:48-65 | issuing succeeds iff the id "rt_" + nonce is free; a clash is a 500 that changes nothing; issuing for an existing user keeps every table guarantee |
| TokenAuth.IssueTokens | server/src/auth.ts:48-65 | the answer and the new tables are `Issued`'s: both tokens signed for the user and their record added, or a 500 with nothing changed |
| TokenAuth.IssuedTokenRotates | server/src/auth.ts:23-100 | a freshly issued refresh token passes every rotation check until its own `exp` and is refused as INVALID_REFRESH from then on |
| TokenAuth.JwtExpiresFirst | server/src/auth.ts:23-53 | a refresh token's `exp` comes no later than its record's expiry, so the record check never fails first |
| TokenAuth.RotationCheck | server/src/auth.ts:67-100 | a token passes iff it verifies at the request's time, carries a token id and subject, names a live unexpired record whose digest matches |
| TokenAuth.RevokedBeforeExpired | server/src/auth.ts:67-100 | a missing or revoked record is reported as revoked before expiry or digest |
| TokenAuth.Rotation | server/src/auth.ts:67-100 | a failing token changes nothing and answers the check's error; a passing token's record is revoked before the user lookup, so a missing `sub` user is USER_NOT_FOUND and a taken new id a 500, each with the record revoked; rotation succeeds iff the check passes, the `sub` user exists and the new id is free, and then issues that user's tokens with the old record revoked; only the token table changes |
| TokenAuth.RotationKeepsIntegrity | server/src/auth.ts:67-100 | rotation keeps every table guarantee |
| TokenAuth.RotateRefreshToken | server/src/auth.ts:67-100 | the answer and the new tables are `Rotation`'s |
| TokenAuth.Revoked | server/src/auth.ts:89-92 | rotation revokes exactly the named record and keeps the table's keys |
| TokenAuth.RotatesAtMostOnce | server/src/auth.ts:67-100 | a refresh token presented again after its rotation is refused as revoked while it still verifies, and as INVALID_REFRESH after its `exp` |
| TokenAuth.DevCodes.constructor | server/src/auth.ts:8 | the code table starts empty |
| TokenAuth.DevCodes.Issue | server/src/auth.ts:102-106 | a "dev_" code is recorded for the user with its expiry |
| TokenAuth.DevCodes.Consume | server/src/auth.ts:108-118 | a code is removed on use and yields its user iff it existed and had not expired |
| TokenAuth.DevUserId | server/src/auth.ts:120-149 | the development user id is dev-teacher iff the role is teacher, otherwise dev-student |
| TokenAuth.DevDisplayName | server/src/auth.ts:120-149 | the given display name, otherwise Dev Teacher or Dev Student |
| TokenAuth.UpsertDevUser | server/src/auth.ts:120-149 | the development user (the teacher's id for teacher, otherwise the student's), course and membership exist with the requested role, whatever that role is |
| TokenAuth.SessionExchange | server/src/server.ts:204-227 | a missing code is 400, then prod mode 501; a string code is consumed in dev mode whatever follows; an unknown, expired or empty-user code is INVALID_CODE and a missing user USER_NOT_FOUND; success iff the code is live for an existing user and the id is free, and then the answer is that user's issued tokens and the user; a failure changes no table |
| TokenAuth.IssuedCodeSignsIn | server/tests/auth.test.ts:26-38 | a code issued for an existing user is exchanged within five minutes for that user's tokens and is gone afterwards |
| TokenAuth.CodeIsSingleUse | server/src/auth.ts:108-118 | a code presented again after a successful exchange is INVALID_CODE |
| TokenAuth.CreateSession | server/src/server.ts:204-227 | the answer, the new tables and the new code table are `SessionExchange`'s |
| TokenAuth.Refreshing | server/src/server.ts:229-234 | a missing token is 400; a token that is not a string or does not verify is INVALID_REFRESH with nothing changed; success only for a string token passing the rotation checks |
| TokenAuth.RefreshReplayIsRevoked | server/tests/auth.test.ts:49-66 | after a successful refresh the same body is refused as REFRESH_REVOKED while the token still verifies, and as INVALID_REFRESH after its `exp` |
| TokenAuth.RefreshSession | server/src/server.ts:229-234 | the answer and the new tables are `Refreshing`'s |
| Access.RemoveFirst | server/src/server.ts:129-142 | an occurrence at the start is cut out, text without the prefix is unchanged, and at most one occurrence's length is removed |
| Access.RemovesFirstOccurrence | server/src/server.ts:129-142 | wherever the first occurrence of the prefix lies, exactly that occurrence is cut out |
| Access.RequireAuth | server/src/server.ts:129-142 | a missing or empty header is refused; the caller is the subject and role of the token verified at the request's time |
| Access.AccessTokenAuthenticates | server/src/server.ts:129-142 | an access token signed for a user authenticates as that user until its `exp`, then is refused as INVALID_TOKEN |
| Access.RefreshTokenIsNotAccess | server/src/server.ts:129-142 | a refresh token never passes as an access token, at any time |
| Access.AccessTokenIsNotRefresh | server/src/auth.ts:67-100 | an access token is never accepted for rotation, at any time |
| Access.CourseRole | server/src/server.ts:75-83 | the caller's role in the course, refused iff there is no membership |
| Access.EntryAccess | server/src/server.ts:85-101 | the entry must exist, not be deleted, be in a course of the caller, and be owned by a student caller; passes iff all hold |
| Access.OwnerAccess | server/src/server.ts:347-349 | passes iff the entry check passes and the caller is its owning student |
| Access.TeacherWithMembershipPasses | server/src/server.ts:85-101 | a teacher member may read any live entry of the course but not act as its owner |
| EntryRoutes.ListEntries | server/src/server.ts:260-274 | members see the course's live entries, students only their own |
| EntryRoutes.StudentListsOwnEntries | server/src/server.ts:260-274 | a student sees exactly their own live entries of the course |
| EntryRoutes.NullableText | server/src/server.ts:302 | `v ?? fallback` for a nullable text column; a non-string is refused |
| EntryRoutes.NewEntry | server/src/server.ts:276-308 | only course students; a body failing a field check is 400 VALIDATION_ERROR; success iff the caller is a student, the fields pass, the id is free and notes are text or absent, and then the new draft holds the body's fields and is owned by the caller; a taken id or non-text notes is a 500 |
| EntryRoutes.MinimalBodyCreatesDraft | server/src/server.ts:276-308 | an id, a date and a goal make an untagged draft with no duration or notes |
| EntryRoutes.CreateEntry | server/src/server.ts:276-308 | stores the new entry, or changes nothing on error |
| EntryRoutes.PatchedEntry | server/src/server.ts:310-340 | only students; a submitted entry refuses truthy locked fields; a failing date, duration or tags check is 400 VALIDATION_ERROR; success iff a student sends a body passing the lock and every field check with text or absent goal and notes, and then each field keeps its value unless supplied; a 500 only for a nullish body or non-text goal or notes |
| EntryRoutes.Patch | server/src/server.ts:310-340 | the entry check, then the edit |
| EntryRoutes.NotesEditableAfterSubmit | server/src/server.ts:319-324 | notes stay editable on a submitted entry |
| EntryRoutes.EmptyEditKeepsEntry | server/src/server.ts:310-340 | a body naming no field changes nothing |
| EntryRoutes.FalsyEditsPassLock | server/src/server.ts:319-324 | an empty goal or a zero duration passes the lock, an empty tag list does not |
| EntryRoutes.PatchEntry | server/src/server.ts:310-340 | stores the edited entry, or changes nothing on error |
| EntryRoutes.Submitted | server/src/server.ts:396-416 | only the owner, only with at least one artifact and all uploaded; only the status changes |
| EntryRoutes.ResubmitIsIdempotent | server/src/server.ts:396-416 | submitting again changes nothing further |
| EntryRoutes.SubmitEntry | server/src/server.ts:396-416 | stores the submitted entry, or changes nothing on error |
| EntryRoutes.Without | server/src/server.ts:363-391 | removes exactly the given ids and keeps the other rows |
| EntryRoutes.MarkersOutside | server/src/server.ts:363-391 | keeps exactly the markers of other feedback |
| EntryRoutes.AfterDelete | server/src/server.ts:363-391 | the entry, its artifacts, the feedback on either and its markers are gone; every other row is as it was |
| EntryRoutes.DeleteKeepsIntegrity | server/src/server.ts:363-391 | deleting an entry leaves no dangling reference |
| EntryRoutes.DeleteObjects | server/src/server.ts:351-361 | succeeds iff every stored object deletes; on failure earlier deletions stay |
| EntryRoutes.RemovingNothing | server/src/server.ts:366-389 | the transaction's emptiness guards change no outcome |
| EntryRoutes.StagedRemovalIsCascade | server/src/server.ts:363-391 | the transaction's staged removals add up to the cascade |
| EntryRoutes.RemoveEntryRows | server/src/server.ts:363-391 | the transaction leaves exactly the tables after the cascade |
| EntryRoutes.DeleteEntry | server/src/server.ts:342-394 | only the owner; a storage failure answers 502 before any row changes; otherwise the cascade |
| ArtifactRoutes.NewArtifact | server/src/server.ts:418-442 | only the owner; a body failing a field check is 400 VALIDATION_ERROR and a taken id a 500; otherwise a fresh audio or video row with a non-negative duration, pending, with no key or URL |
| ArtifactRoutes.CreateArtifact | server/src/server.ts:418-442 | stores the new artifact, or changes nothing on error |
| ArtifactRoutes.NewArtifactBlocksSubmit | server/src/server.ts:418-442 | a new artifact is pending, so its entry cannot be submitted |
| ArtifactRoutes.UploadKey | server/src/server.ts:458 | the recorded key, otherwise artifacts/entryId/artifactId |
| ArtifactRoutes.ArtifactCourse | server/src/server.ts:448-453 | the artifact and its entry must exist and the caller be a member of its course |
| ArtifactRoutes.ContentType | server/src/server.ts:465 | audio/m4a exactly for audio, video/mp4 otherwise |
| ArtifactRoutes.Presigned | server/src/server.ts:444-477 | members may presign, except a student who does not own it; the key is kept and the state becomes uploading |
| ArtifactRoutes.Presign | server/src/server.ts:444-477 | stores the presigned artifact and returns the signed URL for its key, or changes nothing on error |
| ArtifactRoutes.PresignIsStable | server/src/server.ts:458-474 | presigning again gives the same key and row |
| ArtifactRoutes.PresignReopensUpload | server/src/server.ts:468-474 | presigning an uploaded artifact moves it back to uploading and blocks submission |
| ArtifactRoutes.Confirmed | server/src/server.ts:479-514 | any member; needs a key and an existing object; the artifact becomes uploaded with its s3 URL |
| ArtifactRoutes.Confirm | server/src/server.ts:479-514 | stores the confirmed artifact, or changes nothing on error |
| ArtifactRoutes.ConfirmNeedsPresign | server/src/server.ts:479-514 | confirming a fresh artifact before presigning is refused |
| ArtifactRoutes.UploadFlow | server/tests/upload.test.ts:28-67 | create, presign and confirm end with the artifact uploaded at its key's URL |
| FeedbackRoutes.ReviewQueue | server/src/server.ts:516-539 | only teachers of the course; exactly its live submitted entries |
| FeedbackRoutes.SubmittedEntryIsQueued | server/src/server.ts:516-539 | a just-submitted entry is in every course teacher's queue |
| FeedbackRoutes.MarkerItems | server/src/server.ts:552 | the body's markers when an array, otherwise none |
| FeedbackRoutes.ReadMarkers | server/src/server.ts:554-557 | passes iff every marker has a non-negative time and a string text |
| FeedbackRoutes.FeedbackRequest | server/src/server.ts:541-557 | only teachers; passes iff every field checks out, with the body's values |
| FeedbackRoutes.TargetCourse | server/src/server.ts:559-573 | the target must exist (a deleted entry counts) and the caller be a member of its course |
| FeedbackRoutes.MarkerRows | server/src/server.ts:584-590 | one marker row per requested marker, under the new feedback, with its time and text |
| FeedbackRoutes.Posting | server/src/server.ts:541-596 | a refused request is refused with its error; a stored feedback is the caller's, under an id not yet used |
| FeedbackRoutes.PostingOutcome | server/src/server.ts:541-596 | the request's error, else the target's, else 500 iff a key clashes; otherwise the feedback and its fresh markers |
| FeedbackRoutes.PostKeepsIntegrity | server/src/server.ts:575-593 | a successful post keeps every key guarantee |
| FeedbackRoutes.PostStoresRows | server/src/server.ts:575-593 | the feedback row and every created marker are stored under their ids |
| FeedbackRoutes.PostFeedback | server/src/server.ts:541-596 | writes the feedback and markers together, or nothing on error |
| FeedbackRoutes.StudentsCannotPost | server/src/server.ts:543-545 | a student can never post feedback |
| FeedbackRoutes.DeletedEntryIsTargetable | server/src/server.ts:559-564 | a soft-deleted entry can be targeted though it cannot be read |
| FeedbackRoutes.StatusesAgreeWithClient | server/src/server.ts:550 | every stored status decodes on the client to the case with that raw value |
| FeedbackRoutes.ListFeedback | server/src/server.ts:598-619 | the feedback on an accessible entry itself, not on its artifacts |
| FeedbackRoutes.PostedFeedbackIsListed | server/src/server.ts:598-619 | feedback posted on an entry is listed for anyone who may read it |

## Left out

- Views, `APIClient` (the HTTP layer), `CalendarService`, `AudioRecorder`/`AudioPlayer`, `FileStore`, `PDFExporter`, `Persistence` and the app glue are not part of this model. The network, file I/O, rendering and OS services become oracles or are omitted.
- The client's sign-in flow (the development web login and code exchange) is left out: it is browser glue around `POST /auth/session`, which is modelled.
- JSON serialisation, JWT signing and signature checking, SHA-256, nanoid/UUID generation, `DateFormatter` and `new Date` are oracles passed as parameters. Generated ids become nonces.
- The JWT library reads its own clock for `iat` and for the expiry test. The model uses the request's time for both, so the instants between reading the request time and signing are not modelled.
- The routes `GET /health`, `/dev/login`, `GET /courses`, `GET /courses/:courseId` and `GET /auth/me` are read-only projections or HTML glue, and are left out.
- The handlers of `/dev/authorize` and `/dev/issue` (server/src/server.ts:167-202) are left out as routes. They write to the tables, but only through two modelled members: `TokenAuth.UpsertDevUser` (the user, course and membership rows) and `TokenAuth.DevCodes.Issue` (the code). The mode check, the role check of `/dev/authorize`, the user lookup by id of `/dev/issue` and the redirect are not modelled.
- TokenAuth.UpsertDevUser: any role string is accepted, as `/dev/issue` passes the body's role unchecked. The Prisma schema is not part of this model, so whether its role columns would refuse a role other than student or teacher is not modelled.
- Response projections are not modelled: joined display names, `include` of related rows, and field selection. Error message texts are not modelled either; an error is its status and code.
- Server-side `createdAt`/`updatedAt` timestamps are not modelled. The client's are, as a time parameter.
- Numbers are whole numbers or NaN; fractional durations and marker times are not represented.
- Concurrency, such as two requests racing on one row or the client's main actor, is not modelled. Each route runs atomically on one snapshot.
- `storage.ts` (the S3 client) and `index.ts` (process start-up) are not part of this model. Object deletion, upload signing and existence tests are oracles.
- The Prisma schema is not part of this model. A new artifact's upload state is taken to be pending. `Store.Integrity` states the schema's keys together with one invariant the routes keep rather than a key: a feedback row's polymorphic target (entry or artifact) exists. `EntryRoutes.DeleteKeepsIntegrity` and `FeedbackRoutes.PostKeepsIntegrity` prove the routes keep it.
- Swift `String` operations count and compare grapheme clusters, while the model compares characters. This matters at `line.first == " "` and at `cleaned.count == 8` and `>= 15` (ios/ResonanceApp/Sources/ICalParser.swift:53, 70 and 76), and at the legacy tag split `value.split(separator: ",")` (ios/ResonanceApp/Sources/Models.swift:105), where a comma followed by a combining mark does not split in Swift but does in the model. It matters also at the `":"` and `";"` splits of a property line (ios/ResonanceApp/Sources/ICalParser.swift:38-40). Swift's `String ==` and dictionary keys also compare up to canonical equivalence, while the model compares exact characters: `BEGIN:VEVENT`, `END:VEVENT` and property names written with other but equivalent code points are equal in Swift and not in the model. A combining mark would change the outcome at each of these.
- Outbox.SyncManager.FetchReady: the source fetches in store order with no sort, so the model promises only the set of due items, not an order.
- Outbox.SyncManager.ProcessQueue: whether the token refresh succeeded is decided inside `Session.AuthManager.RefreshIfNeeded`. The contract says only what the drain does with the session that results.
- Outbox.SyncManager.ProcessQueue and Outbox.SyncManager.Enqueue: the queue is the model context's contents. The source drops a failing `try? modelContext.save()` (ios/ResonanceApp/Sources/SyncManager.swift:34, 57), so the stored queue can lag the one in memory; that persistence is not modelled.
- Outbox.Drained: the network oracle has no memory, so a call does not see the effect of an earlier call of the same cycle on the server. Dependencies between the items of one cycle are not modelled. For example, an artifact's item fetched before its entry's item is refused with 404 by the server (server/src/server.ts:85-101, 418-442) and succeeds in the other order. This is why a cycle's effect is order independent in the model.
- EntryRoutes.DeleteObjects: keys are deleted once each, in no particular order. Two artifacts sharing a key would delete it twice in the source, with the same outcome.
- ICal.Parse: the generated UID of an event without `UID` is drawn from a `uuid(n)` oracle indexed by the event's position. UUID randomness is not modelled.
