/**
 * Who is asking and what they may touch: the bearer-token check every protected
 * route runs first, course membership, and the entry access check shared by the
 * entry routes. Checks read a snapshot of the tables and either return what they
 * found or the error the route answers with.
 */
module Access {
  import opened Common
  import opened Validation
  import opened Store
  import TokenAuth

  /** The caller as the access token describes it; the role claim is not validated further. */
  datatype AuthUser = AuthUser(id: string, role: string)

  const MissingAuth: ApiError := ApiError(401, "MISSING_AUTH")
  const InvalidToken: ApiError := ApiError(401, "INVALID_TOKEN")
  const CourseAccessDenied: ApiError := ApiError(403, "COURSE_ACCESS_DENIED")
  const EntryNotFound: ApiError := ApiError(404, "ENTRY_NOT_FOUND")
  const EntryDeleted: ApiError := ApiError(410, "ENTRY_DELETED")
  const EntryAccessDenied: ApiError := ApiError(403, "ENTRY_ACCESS_DENIED")
  const OnlyStudents: ApiError := ApiError(403, "ONLY_STUDENTS")
  const OnlyTeachers: ApiError := ApiError(403, "ONLY_TEACHERS")

  const BearerPrefix: string := "Bearer "

  predicate OccursAt(s: string, pat: string, i: nat) {
    i + |pat| <= |s| && s[i..i + |pat|] == pat
  }

  /** Occurrences in the tail are the occurrences in the whole text, shifted by one. */
  lemma OccursInTail(s: string, pat: string, i: nat)
    requires |s| > 0
    ensures OccursAt(s[1..], pat, i) <==> OccursAt(s, pat, i + 1)
  {
    if i + |pat| <= |s[1..]| {
      assert s[1..][i..i + |pat|] == s[i + 1..i + 1 + |pat|];
    }
  }

  /** `s.replace(pat, '')` with a string pattern: only the first occurrence, wherever it is, is removed. */
  function RemoveFirst(s: string, pat: string): (r: string)
    requires |pat| > 0
    ensures OccursAt(s, pat, 0) ==> r == s[|pat|..]
    ensures (forall i: nat :: !OccursAt(s, pat, i)) ==> r == s
    ensures |r| == |s| || |r| == |s| - |pat|
    decreases |s|
  {
    if |s| < |pat| then s
    else if s[..|pat|] == pat then
      assert OccursAt(s, pat, 0);
      s[|pat|..]
    else
      var rest := RemoveFirst(s[1..], pat);
      assert (forall i: nat :: !OccursAt(s, pat, i)) ==> forall i: nat :: !OccursAt(s[1..], pat, i) by {
        if forall i: nat :: !OccursAt(s, pat, i) {
          forall i: nat ensures !OccursAt(s[1..], pat, i) {
            OccursInTail(s, pat, i);
          }
        }
      }
      [s[0]] + rest
  }

  /** Wherever the first occurrence of the pattern is, exactly that occurrence is cut out. */
  lemma {:induction false} RemovesFirstOccurrence(s: string, pat: string, k: nat)
    requires |pat| > 0 && OccursAt(s, pat, k)
    requires forall j: nat :: j < k ==> !OccursAt(s, pat, j)
    ensures RemoveFirst(s, pat) == s[..k] + s[k + |pat|..]
    decreases k
  {
    if k > 0 {
      assert !OccursAt(s, pat, 0);
      var tail := s[1..];
      OccursInTail(s, pat, k - 1);
      forall j: nat | j < k - 1
        ensures !OccursAt(tail, pat, j)
      {
        OccursInTail(s, pat, j);
      }
      RemovesFirstOccurrence(tail, pat, k - 1);
      assert s[..k] == [s[0]] + tail[..k - 1];
      assert s[k + |pat|..] == tail[k - 1 + |pat|..];
    }
  }

  /**
   * The bearer-token check: a missing or empty header is refused, otherwise the
   * first `"Bearer "` is dropped and the rest must verify at the request's time and
   * carry a subject and a role.
   */
  function RequireAuth(header: Option<string>, jwt: TokenAuth.Jwt, now: int): (r: Result<AuthUser, ApiError>)
    ensures header.None? || header == Some("") ==> r == Err(MissingAuth)
    ensures r.Ok? <==>
      header.Some? && header.value != "" &&
      var claims := TokenAuth.Verify(jwt, RemoveFirst(header.value, BearerPrefix), now);
      claims.Some? && TokenAuth.Present(claims.value.sub) && TokenAuth.Present(claims.value.role)
    ensures r.Ok? ==>
      var claims := TokenAuth.Verify(jwt, RemoveFirst(header.value, BearerPrefix), now).value;
      r.value == AuthUser(claims.sub.value, claims.role.value)
    ensures r.Err? ==> r.error in {MissingAuth, InvalidToken}
  {
    if header.None? || header.value == "" then Err(MissingAuth)
    else
      match TokenAuth.Verify(jwt, RemoveFirst(header.value, BearerPrefix), now)
      case None => Err(InvalidToken)
      case Some(claims) =>
        if !TokenAuth.Present(claims.sub) || !TokenAuth.Present(claims.role) then Err(InvalidToken)
        else Ok(AuthUser(claims.sub.value, claims.role.value))
  }

  /** The header `"Bearer " + token` hands exactly the token to verification. */
  lemma BearerHeader(token: string)
    ensures RemoveFirst(BearerPrefix + token, BearerPrefix) == token
  {
    var header := BearerPrefix + token;
    assert header[..|BearerPrefix|] == BearerPrefix;
    assert header[|BearerPrefix|..] == token;
  }

  /**
   * An access token signed for a user with a non-empty id and role authenticates as
   * that user until its `exp`, and is refused as an invalid token from then on.
   */
  lemma AccessTokenAuthenticates(jwt: TokenAuth.Jwt, ttl: TokenAuth.TokenTtl, user: User, issuedAt: int, now: int)
    requires user.id != "" && user.globalRole != ""
    requires TokenAuth.VerifiesSigned(jwt)
    ensures RequireAuth(Some(BearerPrefix + TokenAuth.AccessToken(jwt, ttl, user, issuedAt)), jwt, now) ==
      if TokenAuth.Seconds(now) < TokenAuth.Seconds(issuedAt) + ttl.accessMinutes * 60
      then Ok(AuthUser(user.id, user.globalRole))
      else Err(InvalidToken)
  {
    BearerHeader(TokenAuth.AccessToken(jwt, ttl, user, issuedAt));
  }

  /** A refresh token carries no role claim, so it never passes as an access token, at any time. */
  lemma RefreshTokenIsNotAccess(jwt: TokenAuth.Jwt, ttl: TokenAuth.TokenTtl, user: User, tokenId: string,
                                issuedAt: int, now: int)
    requires TokenAuth.VerifiesSigned(jwt)
    ensures RequireAuth(Some(BearerPrefix + TokenAuth.RefreshToken(jwt, ttl, user, tokenId, issuedAt)), jwt, now)
      == Err(InvalidToken)
  {
    BearerHeader(TokenAuth.RefreshToken(jwt, ttl, user, tokenId, issuedAt));
  }

  /** An access token carries no token id, so it is never accepted for rotation, at any time. */
  lemma AccessTokenIsNotRefresh(tokens: map<string, RefreshRecord>, jwt: TokenAuth.Jwt, ttl: TokenAuth.TokenTtl,
                                user: User, issuedAt: int, now: int)
    requires TokenAuth.VerifiesSigned(jwt)
    ensures TokenAuth.RotationCheck(tokens, jwt, TokenAuth.AccessToken(jwt, ttl, user, issuedAt), now)
      == Err(TokenAuth.InvalidRefresh)
  {
  }

  /** The caller's role in the course; no membership row is refused. */
  function CourseRole(t: Tables, userId: string, courseId: string): (r: Result<string, ApiError>)
    ensures r.Ok? <==> (userId, courseId) in t.memberships
    ensures r.Ok? ==> r.value == t.memberships[(userId, courseId)]
    ensures r.Err? ==> r.error == CourseAccessDenied
  {
    if (userId, courseId) in t.memberships then Ok(t.memberships[(userId, courseId)])
    else Err(CourseAccessDenied)
  }

  /**
   * The entry check, in order: the entry must exist, must not be soft-deleted, the
   * caller must be a member of its course, and a caller whose global role is student
   * must own it. Teachers pass with any membership.
   */
  function EntryAccess(t: Tables, user: AuthUser, entryId: string): (r: Result<Entry, ApiError>)
    ensures entryId !in t.entries ==> r == Err(EntryNotFound)
    ensures entryId in t.entries && t.entries[entryId].deletedAt.Some? ==> r == Err(EntryDeleted)
    ensures (entryId in t.entries && t.entries[entryId].deletedAt.None? &&
             (user.id, t.entries[entryId].courseId) !in t.memberships) ==> r == Err(CourseAccessDenied)
    ensures (entryId in t.entries && t.entries[entryId].deletedAt.None? &&
             (user.id, t.entries[entryId].courseId) in t.memberships &&
             user.role == "student" && t.entries[entryId].studentId != user.id) ==> r == Err(EntryAccessDenied)
    ensures r.Ok? <==>
      entryId in t.entries && t.entries[entryId].deletedAt.None? &&
      (user.id, t.entries[entryId].courseId) in t.memberships &&
      (user.role == "student" ==> t.entries[entryId].studentId == user.id)
    ensures r.Ok? ==> r.value == t.entries[entryId]
  {
    if entryId !in t.entries then Err(EntryNotFound)
    else
      var entry := t.entries[entryId];
      if entry.deletedAt.Some? then Err(EntryDeleted)
      else
        var _ :- CourseRole(t, user.id, entry.courseId);
        if user.role == "student" && entry.studentId != user.id then Err(EntryAccessDenied)
        else Ok(entry)
  }

  /** The owning student: the entry check passes, the caller's global role is student, and the entry is theirs. */
  function OwnerAccess(t: Tables, user: AuthUser, entryId: string): (r: Result<Entry, ApiError>)
    ensures EntryAccess(t, user, entryId).Err? ==> r == EntryAccess(t, user, entryId)
    ensures EntryAccess(t, user, entryId).Ok? && (user.role != "student" || t.entries[entryId].studentId != user.id) ==>
      r == Err(OnlyStudents)
    ensures r.Ok? <==> EntryAccess(t, user, entryId).Ok? && user.role == "student" && t.entries[entryId].studentId == user.id
    ensures r.Ok? ==> r.value == t.entries[entryId]
  {
    var entry :- EntryAccess(t, user, entryId);
    if user.role != "student" || entry.studentId != user.id then Err(OnlyStudents) else Ok(entry)
  }

  /** A teacher who is any kind of member of the entry's course may read it, but may not act as its owner. */
  lemma TeacherWithMembershipPasses(t: Tables, user: AuthUser, entryId: string)
    requires entryId in t.entries && t.entries[entryId].deletedAt.None?
    requires (user.id, t.entries[entryId].courseId) in t.memberships
    requires user.role == "teacher"
    ensures EntryAccess(t, user, entryId) == Ok(t.entries[entryId])
    ensures OwnerAccess(t, user, entryId) == Err(OnlyStudents)
  {
  }
}
