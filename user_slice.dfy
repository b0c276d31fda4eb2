/**
 * store/slices/userSlice.ts: the session state (token, isAuthenticated,
 * currentLocation, user), its reducers authenticate / setUser / logout and
 * the secure-store writes they trigger (storeTokens, removeTokens).
 */
module UserSlice {
  import opened Wrappers
  import opened SecureStore
  import UserTypes

  /** The keys removeTokens deletes: everything that belongs to a session. */
  const SessionKeys: set<string> := {AccessTokenKey, RefreshTokenKey, ExpirationDateKey, UserIdKey}

  /** IAuthenticatePayload; the two optional fields may be absent. */
  datatype AuthenticatePayload = AuthenticatePayload(
    accessToken: string,
    refreshToken: string,
    userId: Option<string>,
    localizedExpirationDateTimeString: Option<string>)

  /** A snapshot of the slice together with the secure store it writes. */
  datatype Session = Session(
    token: Option<string>,
    isAuthenticated: bool,
    currentLocation: Option<string>,
    user: Option<UserTypes.User>,
    store: Store)

  /** Two stores agree on `k`: both lack it or both hold the same value. */
  predicate SameAt(a: Store, b: Store, k: string)
  {
    (k in a <==> k in b) && (k in a ==> a[k] == b[k])
  }

  // ---------------------------------------------------------------------
  // The store effects, as functions of the store before them
  // ---------------------------------------------------------------------

  /**
   * storeTokens: both tokens are always written; userId and the expiration
   * string only when given and non-empty; no other key is touched.
   */
  function StoredTokens(store: Store, accessToken: string, refreshToken: string,
                        userId: Option<string>, expiration: Option<string>): (r: Store)
    ensures AccessTokenKey in r && r[AccessTokenKey] == accessToken
    ensures RefreshTokenKey in r && r[RefreshTokenKey] == refreshToken
    ensures Truthy(userId) ==> UserIdKey in r && r[UserIdKey] == userId.value
    ensures !Truthy(userId) ==> SameAt(r, store, UserIdKey)
    ensures Truthy(expiration) ==> ExpirationDateKey in r && r[ExpirationDateKey] == expiration.value
    ensures !Truthy(expiration) ==> SameAt(r, store, ExpirationDateKey)
    ensures forall k :: k !in SessionKeys ==> SameAt(r, store, k)
  {
    var s1 := store[AccessTokenKey := accessToken][RefreshTokenKey := refreshToken];
    var s2 := if Truthy(userId) then s1[UserIdKey := userId.value] else s1;
    if Truthy(expiration) then s2[ExpirationDateKey := expiration.value] else s2
  }

  /** removeTokens: exactly the four session keys go; every other key survives. */
  function RemovedTokens(store: Store): (r: Store)
    ensures forall k :: k in r <==> k in store && k !in SessionKeys
    ensures forall k :: k in r ==> r[k] == store[k]
  {
    store - SessionKeys
  }

  // ---------------------------------------------------------------------
  // The reducers, as functions of the snapshot before them
  // ---------------------------------------------------------------------

  /** initialState: no token, not authenticated, no location, no user. */
  function Initial(store: Store): Session
  {
    Session(None, false, None, None, store)
  }

  function AuthenticateSpec(s: Session, p: AuthenticatePayload): Session
  {
    s.(token := Some(p.accessToken), isAuthenticated := true,
       store := StoredTokens(s.store, p.accessToken, p.refreshToken, p.userId,
                             p.localizedExpirationDateTimeString))
  }

  function SetUserSpec(s: Session, u: UserTypes.User): Session
  {
    s.(user := Some(u))
  }

  function LogoutSpec(s: Session): Session
  {
    s.(token := None, user := None, isAuthenticated := false, store := RemovedTokens(s.store))
  }

  // ---------------------------------------------------------------------
  // The slice as a mutable object
  // ---------------------------------------------------------------------

  class UserState {
    var token: Option<string>
    var isAuthenticated: bool
    var currentLocation: Option<string>
    var user: Option<UserTypes.User>
    /** The device's secure store, which the reducers write as a side effect. */
    var store: Store

    function State(): Session
      reads this
    {
      Session(token, isAuthenticated, currentLocation, user, store)
    }

    /** The slice at start-up, over whatever the secure store already holds. */
    constructor (store0: Store)
      ensures State() == Initial(store0)
    {
      token := None;
      isAuthenticated := false;
      currentLocation := None;
      user := None;
      store := store0;
    }

    /** storeTokens, one setItemAsync after another. */
    method StoreTokens(accessToken: string, refreshToken: string,
                       userId: Option<string>, expiration: Option<string>)
      modifies this
      ensures store == StoredTokens(old(store), accessToken, refreshToken, userId, expiration)
      ensures token == old(token) && isAuthenticated == old(isAuthenticated)
      ensures currentLocation == old(currentLocation) && user == old(user)
    {
      store := store[AccessTokenKey := accessToken];
      store := store[RefreshTokenKey := refreshToken];
      if Truthy(userId) {
        store := store[UserIdKey := userId.value];
      }
      if Truthy(expiration) {
        store := store[ExpirationDateKey := expiration.value];
      }
    }

    /** removeTokens, one deleteItemAsync after another. */
    method RemoveTokens()
      modifies this
      ensures store == RemovedTokens(old(store))
      ensures token == old(token) && isAuthenticated == old(isAuthenticated)
      ensures currentLocation == old(currentLocation) && user == old(user)
    {
      store := store - {AccessTokenKey};
      store := store - {RefreshTokenKey};
      store := store - {ExpirationDateKey};
      store := store - {UserIdKey};
    }

    method Authenticate(p: AuthenticatePayload)
      modifies this
      ensures State() == AuthenticateSpec(old(State()), p)
    {
      token := Some(p.accessToken);
      isAuthenticated := true;
      StoreTokens(p.accessToken, p.refreshToken, p.userId, p.localizedExpirationDateTimeString);
    }

    method SetUser(u: UserTypes.User)
      modifies this
      ensures State() == SetUserSpec(old(State()), u)
    {
      user := Some(u);
    }

    method Logout()
      modifies this
      ensures State() == LogoutSpec(old(State()))
    {
      token := None;
      user := None;
      isAuthenticated := false;
      RemoveTokens();
    }
  }

  // ---------------------------------------------------------------------
  // Properties of the reducers
  // ---------------------------------------------------------------------

  /** authenticate sets the token and the flag and leaves user and location alone. */
  lemma AuthenticateState(s: Session, p: AuthenticatePayload)
    ensures AuthenticateSpec(s, p).token == Some(p.accessToken)
    ensures AuthenticateSpec(s, p).isAuthenticated
    ensures AuthenticateSpec(s, p).user == s.user
    ensures AuthenticateSpec(s, p).currentLocation == s.currentLocation
  {
  }

  /** Without a userId and an expiration, authenticate rewrites only the two token keys. */
  lemma AuthenticateTokensOnly(s: Session, accessToken: string, refreshToken: string)
    ensures var r := AuthenticateSpec(s, AuthenticatePayload(accessToken, refreshToken, None, None)).store;
            forall k :: k != AccessTokenKey && k != RefreshTokenKey ==> SameAt(r, s.store, k)
  {
  }

  /** setUser replaces the user and nothing else. */
  lemma SetUserOnly(s: Session, u: UserTypes.User)
    ensures SetUserSpec(s, u).user == Some(u)
    ensures SetUserSpec(s, u).(user := s.user) == s
  {
  }

  /** logout clears token, user and flag, keeps the location, and keeps non-session keys such as the theme. */
  lemma LogoutClears(s: Session)
    ensures var r := LogoutSpec(s);
            r.token.None? && r.user.None? && !r.isAuthenticated && r.currentLocation == s.currentLocation
    ensures forall k :: k in SessionKeys ==> k !in LogoutSpec(s).store
    ensures SameAt(LogoutSpec(s).store, s.store, ThemeKey)
  {
  }

  /** A second logout changes nothing. */
  lemma LogoutIdempotent(s: Session)
    ensures LogoutSpec(LogoutSpec(s)) == LogoutSpec(s)
  {
  }

  /** After logout, authenticate restores the flag but not the user: that needs setUser. */
  lemma UserNotRestoredByAuthenticate(s: Session, p: AuthenticatePayload)
    ensures AuthenticateSpec(LogoutSpec(s), p).isAuthenticated
    ensures AuthenticateSpec(LogoutSpec(s), p).user.None?
  {
  }

  /** Authenticating twice with the same payload is the same as once. */
  lemma AuthenticateIdempotent(s: Session, p: AuthenticatePayload)
    ensures AuthenticateSpec(AuthenticateSpec(s, p), p) == AuthenticateSpec(s, p)
  {
  }

  /** The initial state is the logged-out state, apart from the store. */
  lemma InitialIsLoggedOut(s: Session)
    requires s.currentLocation.None?
    ensures LogoutSpec(s).(store := s.store) == Initial(s.store)
  {
  }
}
