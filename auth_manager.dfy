/**
 * The client's sign-in state. The session lives in memory and is mirrored in the
 * keychain under five keys; it is loaded back only when all five are present.
 * The keychain itself is modelled as a map from key to stored string.
 */
module Session {
  import opened Common

  datatype AuthSession = AuthSession(
    accessToken: string,
    refreshToken: string,
    userId: string,
    displayName: string,
    globalRole: string)

  /** A fresh token pair returned by the server's refresh endpoint. */
  datatype TokenPair = TokenPair(accessToken: string, refreshToken: string)

  type Keychain = map<string, string>

  const AccessKey: string := "accessToken"
  const RefreshKey: string := "refreshToken"
  const UserIdKey: string := "userId"
  const DisplayNameKey: string := "displayName"
  const RoleKey: string := "globalRole"

  /** The five keychain entries that make up a session. */
  function SessionKeys(): set<string> {
    {AccessKey, RefreshKey, UserIdKey, DisplayNameKey, RoleKey}
  }

  /** The session the keychain holds: present exactly when all five entries are. */
  function SessionFrom(kc: Keychain): (r: Option<AuthSession>)
    ensures r.Some? <==> SessionKeys() <= kc.Keys
    ensures r.Some? ==> r.value.accessToken == kc[AccessKey] && r.value.refreshToken == kc[RefreshKey]
    ensures r.Some? ==> r.value.userId == kc[UserIdKey] && r.value.displayName == kc[DisplayNameKey]
    ensures r.Some? ==> r.value.globalRole == kc[RoleKey]
  {
    if AccessKey in kc && RefreshKey in kc && UserIdKey in kc && DisplayNameKey in kc && RoleKey in kc then
      Some(AuthSession(kc[AccessKey], kc[RefreshKey], kc[UserIdKey], kc[DisplayNameKey], kc[RoleKey]))
    else
      None
  }

  /** The keychain after writing a session's five entries. */
  function Stored(kc: Keychain, s: AuthSession): Keychain {
    kc[AccessKey := s.accessToken][RefreshKey := s.refreshToken][UserIdKey := s.userId]
      [DisplayNameKey := s.displayName][RoleKey := s.globalRole]
  }

  /** The keychain after removing a session's five entries. */
  function Removed(kc: Keychain): Keychain {
    kc - SessionKeys()
  }

  /** Whatever the keychain held before, a stored session is read back unchanged. */
  lemma StoreThenLoad(kc: Keychain, s: AuthSession)
    ensures SessionFrom(Stored(kc, s)) == Some(s)
    ensures forall k :: k in kc && k !in SessionKeys() ==> k in Stored(kc, s) && Stored(kc, s)[k] == kc[k]
  {
    var kc' := Stored(kc, s);
    assert SessionKeys() <= kc'.Keys;
  }

  /** After the five entries are removed no session can be read back. */
  lemma RemoveThenLoad(kc: Keychain)
    ensures SessionFrom(Removed(kc)) == None
    ensures forall k :: k in kc && k !in SessionKeys() ==> k in Removed(kc) && Removed(kc)[k] == kc[k]
  {
    assert AccessKey !in Removed(kc);
  }

  class AuthManager {
    var session: Option<AuthSession>
    var keychain: Keychain

    /** The in-memory session agrees with what the keychain would load. */
    predicate Consistent()
      reads this
    {
      session == SessionFrom(keychain)
    }

    /** Creating the manager loads whatever session the keychain holds. */
    constructor (kc: Keychain)
      ensures keychain == kc && session == SessionFrom(kc) && Consistent()
    {
      keychain := kc;
      session := SessionFrom(kc);
    }

    /** Reads the five entries; any one missing clears the session. */
    method LoadSession()
      modifies this`session
      ensures session == SessionFrom(keychain) && Consistent()
    {
      if AccessKey in keychain && RefreshKey in keychain && UserIdKey in keychain
        && DisplayNameKey in keychain && RoleKey in keychain
      {
        session := Some(AuthSession(keychain[AccessKey], keychain[RefreshKey], keychain[UserIdKey],
                                    keychain[DisplayNameKey], keychain[RoleKey]));
      } else {
        session := None;
      }
    }

    /** Writes the five entries one by one, then publishes the session. */
    method PersistSession(s: AuthSession)
      modifies this
      ensures keychain == Stored(old(keychain), s) && session == Some(s)
      ensures Consistent()
    {
      keychain := keychain[AccessKey := s.accessToken];
      keychain := keychain[RefreshKey := s.refreshToken];
      keychain := keychain[UserIdKey := s.userId];
      keychain := keychain[DisplayNameKey := s.displayName];
      keychain := keychain[RoleKey := s.globalRole];
      session := Some(s);
      StoreThenLoad(old(keychain), s);
    }

    /** Removes the five entries one by one and clears the session. */
    method SignOut()
      modifies this
      ensures keychain == Removed(old(keychain)) && session == None
      ensures Consistent()
    {
      keychain := keychain - {AccessKey};
      keychain := keychain - {RefreshKey};
      keychain := keychain - {UserIdKey};
      keychain := keychain - {DisplayNameKey};
      keychain := keychain - {RoleKey};
      session := None;
      assert keychain == Removed(old(keychain));
      RemoveThenLoad(old(keychain));
    }

    /**
     * Exchanges the refresh token whenever a session exists (the name notwithstanding,
     * there is no expiry test). `refresh` is the server call: `None` when it throws.
     * Success keeps the user fields and stores the new pair; failure signs out.
     */
    method RefreshIfNeeded(refresh: string -> Option<TokenPair>)
      modifies this
      ensures old(session).None? ==> session == old(session) && keychain == old(keychain)
      ensures old(session).Some? && refresh(old(session).value.refreshToken).Some? ==>
        var s := old(session).value;
        var p := refresh(s.refreshToken).value;
        session == Some(AuthSession(p.accessToken, p.refreshToken, s.userId, s.displayName, s.globalRole))
        && keychain == Stored(old(keychain), session.value)
      ensures old(session).Some? && refresh(old(session).value.refreshToken).None? ==>
        session == None && keychain == Removed(old(keychain))
      ensures old(session).Some? ==> Consistent()
      ensures old(Consistent()) ==> Consistent()
    {
      if session.None? {
        return;
      }
      var current := session.value;
      var refreshed := refresh(current.refreshToken);
      if refreshed.Some? {
        var newSession := AuthSession(refreshed.value.accessToken, refreshed.value.refreshToken,
                                      current.userId, current.displayName, current.globalRole);
        PersistSession(newSession);
      } else {
        SignOut();
      }
    }
  }
}
