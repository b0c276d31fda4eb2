/**
 * api/httpClient.ts: the session coordinator handleRefreshTokenAsync that
 * the request interceptor runs before every request of the API client, and
 * the request gateway verbHttpClient with its post/get/put/delete wrappers.
 *
 * The identity provider's reply, the network's answer to the request, the
 * clock and the rendering of the new expiration instant are parameters.
 */
module HttpClient {
  import opened Wrappers
  import opened SecureStore
  import opened UserSlice
  import opened HelperFunctions

  type Headers = map<string, string>

  const AuthorizationKey: string := "Authorization"
  const JsonSettingsKey: string := "JsonSettings"
  const ContentTypeKey: string := "Content-Type"

  function Bearer(token: string): string
  {
    "Bearer " + token
  }

  /** The body posted to the identity provider's token endpoint. */
  datatype RefreshTokenRequest = RefreshTokenRequest(grantType: string, refreshToken: string)

  /** What the provider call resolves to when it does not fail: status and the three data fields. */
  datatype ProviderReply = ProviderReply(status: int, accessToken: string, refreshToken: string, expiresIn: int)

  /** Which way handleRefreshTokenAsync went. `Threw` is the coordinator throwing before any effect. */
  datatype Outcome = NoSession | StillValid | Refreshed | RefreshFailed | Threw

  /** The request config the interceptor hands to the coordinator; `headers` may be absent. */
  class RequestConfig {
    var headers: Option<Headers>
    var data: Option<string>

    constructor (headers0: Option<Headers>, data0: Option<string>)
      ensures headers == headers0 && data == data0
    {
      headers := headers0;
      data := data0;
    }
  }

  // ---------------------------------------------------------------------
  // handleRefreshTokenAsync
  // ---------------------------------------------------------------------

  /** accessToken, refreshToken and userId are all stored and non-empty. */
  predicate HasCredentials(store: Store)
  {
    Truthy(GetItem(store, AccessTokenKey)) && Truthy(GetItem(store, RefreshTokenKey))
    && Truthy(GetItem(store, UserIdKey))
  }

  /**
   * Everything one run of the coordinator does: the new slice and store,
   * the Authorization value it writes (when the config has headers), the
   * branch taken and the request sent to the provider, if any.
   */
  datatype CoordinatorResult = CoordinatorResult(
    session: Session,
    authorization: Option<string>,
    outcome: Outcome,
    providerCall: Option<RefreshTokenRequest>)

  function Coordinate(s: Session, now: int, tzOffsetMinutes: int, reply: Option<ProviderReply>,
                      convertUTCTime: int -> string): CoordinatorResult
  {
    var st := s.store;
    if !HasCredentials(st) then CoordinatorResult(s, None, NoSession, None)
    else match StoredExpirationMillis(st, tzOffsetMinutes)
      case None => CoordinatorResult(s, None, Threw, None)
      case Some(expiry) =>
        if expiry < now then
          var call := Some(RefreshTokenRequest("refresh_token", st[RefreshTokenKey]));
          if reply.Some? && reply.value.status == 200 then
            var expiration := CalculateExpirationTime(now, tzOffsetMinutes, reply.value.expiresIn);
            var payload := AuthenticatePayload(reply.value.accessToken, reply.value.refreshToken,
                                               Some(st[UserIdKey]), Some(convertUTCTime(expiration)));
            CoordinatorResult(AuthenticateSpec(s, payload), Some(Bearer(reply.value.accessToken)), Refreshed, call)
          else
            CoordinatorResult(LogoutSpec(s), None, RefreshFailed, call)
        else
          var payload := AuthenticatePayload(st[AccessTokenKey], st[RefreshTokenKey], None, None);
          CoordinatorResult(AuthenticateSpec(s, payload), Some(Bearer(st[AccessTokenKey])), StillValid, None)
  }

  /**
   * handleRefreshTokenAsync: reads the three credentials; with all of them,
   * compares the stored expiration with `now` and either refreshes through
   * the provider (whose answer is `reply`) or keeps the stored token,
   * dispatching authenticate or logout to the slice and writing the
   * Authorization header into the config when it has headers.
   */
  method HandleRefreshToken(session: UserState, config: RequestConfig?, now: int, tzOffsetMinutes: int,
                            reply: Option<ProviderReply>, convertUTCTime: int -> string)
    returns (outcome: Outcome, providerCall: Option<RefreshTokenRequest>)
    modifies session, config
    ensures var r := Coordinate(old(session.State()), now, tzOffsetMinutes, reply, convertUTCTime);
            session.State() == r.session && outcome == r.outcome && providerCall == r.providerCall
            && (config != null && old(config.headers).Some? && r.authorization.Some? ==>
                  config.headers == Some(old(config.headers).value[AuthorizationKey := r.authorization.value]))
            && (config != null && (old(config.headers).None? || r.authorization.None?) ==>
                  config.headers == old(config.headers))
    ensures config != null ==> config.data == old(config.data)
  {
    var accessToken := GetItem(session.store, AccessTokenKey);
    var refreshToken := GetItem(session.store, RefreshTokenKey);
    var userId := GetItem(session.store, UserIdKey);
    providerCall := None;
    if !(Truthy(accessToken) && Truthy(refreshToken) && Truthy(userId)) {
      outcome := NoSession;
      return;
    }
    var tokenExpirationTime := GetExpirationDateTime(session.store, tzOffsetMinutes);
    if tokenExpirationTime.None? {
      // The stored string did not match: the call throws before any effect.
      outcome := Threw;
      return;
    }
    if tokenExpirationTime.value < now {
      providerCall := Some(RefreshTokenRequest("refresh_token", refreshToken.value));
      var response := reply;
      if response.Some? && response.value.status == 200 {
        var newAccessToken := response.value.accessToken;
        var expirationDateTime := CalculateExpirationTime(now, tzOffsetMinutes, response.value.expiresIn);
        var localized := convertUTCTime(expirationDateTime);
        session.Authenticate(AuthenticatePayload(newAccessToken, response.value.refreshToken,
                                                 Some(userId.value), Some(localized)));
        if config != null && config.headers.Some? {
          config.headers := Some(config.headers.value[AuthorizationKey := Bearer(newAccessToken)]);
        }
        outcome := Refreshed;
      } else {
        session.Logout();
        outcome := RefreshFailed;
      }
    } else {
      if config != null && config.headers.Some? {
        config.headers := Some(config.headers.value[AuthorizationKey := Bearer(accessToken.value)]);
      }
      session.Authenticate(AuthenticatePayload(accessToken.value, refreshToken.value, None, None));
      outcome := StillValid;
    }
  }

  // ---------------------------------------------------------------------
  // Properties of the coordinator
  // ---------------------------------------------------------------------

  /** Without all three credentials nothing happens: no header, no dispatch, no provider call. */
  lemma MissingCredentialsDoNothing(s: Session, now: int, tz: int, reply: Option<ProviderReply>, f: int -> string)
    requires !HasCredentials(s.store)
    ensures Coordinate(s, now, tz, reply, f) == CoordinatorResult(s, None, NoSession, None)
  {
  }

  /**
   * With credentials and a readable expiration, the provider is called
   * exactly when the expiration lies strictly before `now`; an expiration
   * equal to `now` still counts as valid.
   */
  lemma RefreshTrigger(s: Session, now: int, tz: int, reply: Option<ProviderReply>, f: int -> string, expiry: int)
    requires HasCredentials(s.store) && StoredExpirationMillis(s.store, tz) == Some(expiry)
    ensures Coordinate(s, now, tz, reply, f).providerCall.Some? <==> expiry < now
    ensures expiry == now ==> Coordinate(s, now, tz, reply, f).outcome == StillValid
  {
  }

  /** A missing or empty expirationDate reads as instant 0, so at any later time a refresh is attempted. */
  lemma MissingExpirationRefreshes(s: Session, now: int, tz: int, reply: Option<ProviderReply>, f: int -> string)
    requires HasCredentials(s.store) && !Truthy(GetItem(s.store, ExpirationDateKey)) && now > 0
    ensures Coordinate(s, now, tz, reply, f).providerCall.Some?
  {
  }

  /** The provider is only called in the expired branch, with grant type refresh_token and the stored refresh token. */
  lemma ProviderCallShape(s: Session, now: int, tz: int, reply: Option<ProviderReply>, f: int -> string)
    ensures var r := Coordinate(s, now, tz, reply, f);
            r.providerCall.Some? ==>
              r.outcome in {Refreshed, RefreshFailed}
              && r.providerCall.value == RefreshTokenRequest("refresh_token", s.store[RefreshTokenKey])
  {
  }

  /**
   * A 200 reply: authenticate with the new tokens, the unchanged stored
   * userId and the rendering of the new expiration instant; the header
   * carries the new access token.
   */
  lemma RefreshSuccess(s: Session, now: int, tz: int, p: ProviderReply, f: int -> string, expiry: int)
    requires HasCredentials(s.store) && StoredExpirationMillis(s.store, tz) == Some(expiry) && expiry < now
    requires p.status == 200
    ensures var r := Coordinate(s, now, tz, Some(p), f);
            r.outcome == Refreshed && r.authorization == Some("Bearer " + p.accessToken)
            && r.session.token == Some(p.accessToken) && r.session.isAuthenticated
            && r.session.store[AccessTokenKey] == p.accessToken
            && r.session.store[RefreshTokenKey] == p.refreshToken
            && r.session.store[UserIdKey] == s.store[UserIdKey]
            && (f(now + tz * 60000 + p.expiresIn * 1000) != "" ==>
                  r.session.store[ExpirationDateKey] == f(now + tz * 60000 + p.expiresIn * 1000))
  {
  }

  /** No reply or a status other than 200: logout, and no header is written. */
  lemma RefreshFailure(s: Session, now: int, tz: int, reply: Option<ProviderReply>, f: int -> string, expiry: int)
    requires HasCredentials(s.store) && StoredExpirationMillis(s.store, tz) == Some(expiry) && expiry < now
    requires reply.None? || reply.value.status != 200
    ensures var r := Coordinate(s, now, tz, reply, f);
            r.outcome == RefreshFailed && r.authorization.None? && r.session == LogoutSpec(s)
            && !r.session.isAuthenticated && AccessTokenKey !in r.session.store
  {
  }

  /**
   * A token still valid: the header carries the stored access token and
   * authenticate rewrites only the two token keys with their own values,
   * so the store is unchanged.
   */
  lemma ValidTokenKeepsStore(s: Session, now: int, tz: int, reply: Option<ProviderReply>, f: int -> string, expiry: int)
    requires HasCredentials(s.store) && StoredExpirationMillis(s.store, tz) == Some(expiry) && now <= expiry
    ensures var r := Coordinate(s, now, tz, reply, f);
            r.outcome == StillValid && r.providerCall.None?
            && r.authorization == Some(Bearer(s.store[AccessTokenKey]))
            && r.session.store == s.store && r.session.token == Some(s.store[AccessTokenKey])
  {
    var r := Coordinate(s, now, tz, reply, f);
    assert r.session.store == s.store by {
      var t := r.session.store;
      assert forall k :: k in t <==> k in s.store;
      assert forall k :: k in t ==> t[k] == s.store[k];
    }
  }

  /** An expiration string that does not parse makes the coordinator throw before any effect. */
  lemma UnreadableExpirationThrows(s: Session, now: int, tz: int, reply: Option<ProviderReply>, f: int -> string)
    requires HasCredentials(s.store) && StoredExpirationMillis(s.store, tz).None?
    ensures Coordinate(s, now, tz, reply, f) == CoordinatorResult(s, None, Threw, None)
  {
  }

  // ---------------------------------------------------------------------
  // The provider call as written
  // ---------------------------------------------------------------------

  /**
   * handleRefreshTokenAsync as written imports `refrehUserTokenAsync`, a
   * name the Firebase service module does not export (it exports
   * `refreshUserTokenAsync`). The binding is undefined, so calling it in
   * the expired branch throws a TypeError before the provider is reached
   * and before anything is dispatched. Every other branch is as in
   * Coordinate, which models the call the code evidently intends.
   */
  function CoordinateAsWritten(s: Session, now: int, tzOffsetMinutes: int, reply: Option<ProviderReply>,
                               convertUTCTime: int -> string): CoordinatorResult
  {
    var c := Coordinate(s, now, tzOffsetMinutes, reply, convertUTCTime);
    if c.providerCall.Some? then CoordinatorResult(s, None, Threw, None) else c
  }

  /**
   * As written, a stored session whose expiration lies before `now` is
   * never refreshed nor logged out: the coordinator throws with the slice
   * and store untouched, whatever the provider would have answered, where
   * the intended coordinator refreshes or logs out.
   */
  lemma ExpiredSessionThrowsAsWritten(s: Session, now: int, tz: int, reply: Option<ProviderReply>, f: int -> string,
                                      expiry: int)
    requires HasCredentials(s.store) && StoredExpirationMillis(s.store, tz) == Some(expiry) && expiry < now
    ensures CoordinateAsWritten(s, now, tz, reply, f) == CoordinatorResult(s, None, Threw, None)
    ensures Coordinate(s, now, tz, reply, f).outcome in {Refreshed, RefreshFailed}
    ensures Coordinate(s, now, tz, reply, f).providerCall == Some(RefreshTokenRequest("refresh_token", s.store[RefreshTokenKey]))
  {
  }

  /** Outside the expired branch the code as written and the intended coordinator agree. */
  lemma AsWrittenAgreesUnlessExpired(s: Session, now: int, tz: int, reply: Option<ProviderReply>, f: int -> string)
    ensures Coordinate(s, now, tz, reply, f).providerCall.None? ==>
              CoordinateAsWritten(s, now, tz, reply, f) == Coordinate(s, now, tz, reply, f)
  {
  }

  // ---------------------------------------------------------------------
  // verbHttpClient
  // ---------------------------------------------------------------------

  datatype Verb = Post | Get | Delete | Put

  datatype HttpResponse = HttpResponse(status: int, data: Option<string>)

  /** How the network answers the request: a response, or an error that may carry one. */
  datatype Transport = Delivered(response: HttpResponse) | Failed(errorResponse: Option<HttpResponse>)

  /** RequestResponse: `data` and `error`, either of which may be undefined. */
  datatype RequestResponse = RequestResponse(data: Option<string>, error: Option<HttpResponse>)

  /** What goes out: the verb, the url, the body argument, the headers and `data` of the config. */
  datatype SentRequest = SentRequest(
    verb: Verb, url: string, body: Option<string>, headers: Option<Headers>, data: Option<string>,
    throughFactory: bool)

  /**
   * The headers verbHttpClient builds: fullyTyped adds JsonSettings, a call
   * without an explicit client adds the JSON Content-Type; every other
   * header is kept.
   */
  function PreparedHeaders(headers: Option<Headers>, fullyTyped: bool, hasClient: bool): (r: Option<Headers>)
    ensures fullyTyped ==> r.Some? && JsonSettingsKey in r.value && r.value[JsonSettingsKey] == "FullyTyped"
    ensures !hasClient ==> r.Some? && ContentTypeKey in r.value && r.value[ContentTypeKey] == "application/json"
    ensures !fullyTyped && hasClient ==> r == headers
    ensures forall k :: headers.Some? && k in headers.value && k != JsonSettingsKey && k != ContentTypeKey
              ==> r.Some? && k in r.value && r.value[k] == headers.value[k]
    ensures r.Some? ==> forall k :: k in r.value ==>
              k == JsonSettingsKey || k == ContentTypeKey || (headers.Some? && k in headers.value)
  {
    var h1 := if fullyTyped then Some(Spread(headers)[JsonSettingsKey := "FullyTyped"]) else headers;
    if !hasClient then Some(Spread(h1)[ContentTypeKey := "application/json"]) else h1
  }

  /** `...headers` of an absent header object spreads nothing. */
  function Spread(headers: Option<Headers>): Headers
  {
    if headers.Some? then headers.value else map[]
  }

  /** post and put pass the body as an argument; get and delete only through `data`. */
  function BodyArgument(verb: Verb, body: Option<string>): Option<string>
  {
    if verb == Post || verb == Put then body else None
  }

  /** handleErrors: whatever the error, the result is its response as `error` and no data. */
  function HandleErrors(errorResponse: Option<HttpResponse>): (r: RequestResponse)
    ensures r.data.None? && r.error == errorResponse
  {
    RequestResponse(None, errorResponse)
  }

  /** The result for a request that went out: parseJson's data, or the catch branches. */
  function Classify(t: Transport): (r: RequestResponse)
    ensures t.Delivered? ==> r == RequestResponse(t.response.data, None)
    ensures t.Failed? ==> r == RequestResponse(None, t.errorResponse)
  {
    match t
    case Delivered(response) => RequestResponse(response.data, None)
    case Failed(resp) =>
      if resp.Some? && resp.value.status < 400 then RequestResponse(None, resp)
      else HandleErrors(resp)
  }

  datatype GatewayResult = GatewayResult(session: Session, sent: Option<SentRequest>, result: RequestResponse)

  /**
   * One call of verbHttpClient: the headers built from the options, then
   * (without an explicit client) the interceptor's coordinator run, whose
   * Authorization header joins the request, then the classification of
   * what the network answers. A coordinator that throws rejects the
   * request: nothing is sent and the result carries neither data nor error.
   */
  function Gateway(s: Session, verb: Verb, url: string, body: Option<string>, headers: Option<Headers>,
                   fullyTyped: bool, hasClient: bool, now: int, tz: int, reply: Option<ProviderReply>,
                   convertUTCTime: int -> string, t: Transport): GatewayResult
  {
    var prepared := PreparedHeaders(headers, fullyTyped, hasClient);
    if hasClient then
      GatewayResult(s, Some(SentRequest(verb, url, BodyArgument(verb, body), prepared, body, false)), Classify(t))
    else
      var c := Coordinate(s, now, tz, reply, convertUTCTime);
      if c.outcome == Threw then
        GatewayResult(s, None, HandleErrors(None))
      else
        var h := if c.authorization.Some? then Some(prepared.value[AuthorizationKey := c.authorization.value])
                 else prepared;
        GatewayResult(c.session, Some(SentRequest(verb, url, BodyArgument(verb, body), h, body, true)), Classify(t))
  }

  /**
   * The first half of verbHttpClient: fullyTyped replaces `options` by a
   * copy with JsonSettings, then `data` is set and, without an explicit
   * client, the JSON Content-Type is added, on whichever object `options`
   * now is.
   */
  method PrepareConfig(options: RequestConfig, body: Option<string>, fullyTyped: bool, hasClient: bool)
    returns (opts: RequestConfig)
    modifies options
    ensures opts.headers == PreparedHeaders(old(options.headers), fullyTyped, hasClient) && opts.data == body
    ensures fullyTyped ==> fresh(opts) && options.headers == old(options.headers) && options.data == old(options.data)
    ensures !fullyTyped ==> opts == options
  {
    opts := options;
    if fullyTyped {
      opts := new RequestConfig(Some(Spread(options.headers)[JsonSettingsKey := "FullyTyped"]), options.data);
    }
    opts.data := body;
    if !hasClient {
      opts.headers := Some(Spread(opts.headers)[ContentTypeKey := "application/json"]);
    }
  }

  /**
   * The try/catch around the verb call: parseJson's data when the request
   * is delivered; on a thrown error its response, through either catch
   * branch, and never any data.
   */
  method AwaitResponse(t: Transport) returns (result: RequestResponse)
    ensures t.Delivered? ==> result.error.None? && result.data == t.response.data
    ensures t.Failed? ==> result.data.None? && result.error == t.errorResponse
    ensures result == Classify(t)
  {
    match t {
      case Delivered(response) =>
        var data := response.data;
        result := RequestResponse(data, None);
      case Failed(errorResponse) =>
        if errorResponse.Some? && errorResponse.value.status < 400 {
          result := RequestResponse(None, errorResponse);
        } else {
          result := HandleErrors(errorResponse);
        }
    }
  }

  /**
   * The request interceptor of the factory client: the coordinator runs on
   * axios's copy of the config, whose headers then go out; nothing goes
   * out when the coordinator throws.
   */
  method Intercept(session: UserState, headers: Headers, data: Option<string>, now: int, tz: int,
                   reply: Option<ProviderReply>, convertUTCTime: int -> string)
    returns (sentHeaders: Option<Headers>)
    modifies session
    ensures var c := Coordinate(old(session.State()), now, tz, reply, convertUTCTime);
            session.State() == c.session
            && (c.outcome == Threw ==> sentHeaders.None?)
            && (c.outcome != Threw && c.authorization.Some? ==>
                  sentHeaders == Some(headers[AuthorizationKey := c.authorization.value]))
            && (c.outcome != Threw && c.authorization.None? ==> sentHeaders == Some(headers))
  {
    var config := new RequestConfig(Some(headers), data);
    var outcome, _ := HandleRefreshToken(session, config, now, tz, reply, convertUTCTime);
    if outcome == Threw {
      return None;
    }
    sentHeaders := config.headers;
  }

  /**
   * verbHttpClient. A fullyTyped call replaces `options` by a copy, so the
   * caller's object keeps its fields; otherwise `data` and (without a
   * client) the headers are written into the caller's object itself.
   */
  method VerbHttpClient(session: UserState, verb: Verb, url: string, body: Option<string>,
                        options: RequestConfig, fullyTyped: bool, hasClient: bool,
                        now: int, tz: int, reply: Option<ProviderReply>, convertUTCTime: int -> string,
                        t: Transport)
    returns (result: RequestResponse, sent: Option<SentRequest>)
    modifies session, options
    ensures var g := Gateway(old(session.State()), verb, url, body, old(options.headers), fullyTyped,
                             hasClient, now, tz, reply, convertUTCTime, t);
            session.State() == g.session && sent == g.sent && result == g.result
    ensures fullyTyped ==> options.headers == old(options.headers) && options.data == old(options.data)
    ensures !fullyTyped ==>
              options.data == body && options.headers == PreparedHeaders(old(options.headers), false, hasClient)
  {
    var opts := PrepareConfig(options, body, fullyTyped, hasClient);
    var headers := opts.headers;
    if !hasClient {
      var intercepted := Intercept(session, opts.headers.value, opts.data, now, tz, reply, convertUTCTime);
      if intercepted.None? {
        sent := None;
        result := HandleErrors(None);
        return;
      }
      headers := intercepted;
    }
    sent := Some(SentRequest(verb, url, BodyArgument(verb, body), headers, body, !hasClient));
    result := AwaitResponse(t);
  }

  method PostHttpClient(session: UserState, url: string, body: Option<string>, options: RequestConfig,
                        fullyTyped: bool, now: int, tz: int, reply: Option<ProviderReply>,
                        convertUTCTime: int -> string, t: Transport)
    returns (result: RequestResponse, sent: Option<SentRequest>)
    modifies session, options
    ensures var g := Gateway(old(session.State()), Post, url, body, old(options.headers), fullyTyped,
                             false, now, tz, reply, convertUTCTime, t);
            session.State() == g.session && sent == g.sent && result == g.result
  {
    result, sent := VerbHttpClient(session, Post, url, body, options, fullyTyped, false, now, tz, reply, convertUTCTime, t);
  }

  /** getHttpClient: with noPrefixUrl the bare client is passed, so no interceptor and no Content-Type. */
  method GetHttpClient(session: UserState, url: string, options: RequestConfig, fullyTyped: bool,
                       noPrefixUrl: bool, now: int, tz: int, reply: Option<ProviderReply>,
                       convertUTCTime: int -> string, t: Transport)
    returns (result: RequestResponse, sent: Option<SentRequest>)
    modifies session, options
    ensures var g := Gateway(old(session.State()), Get, url, None, old(options.headers), fullyTyped,
                             noPrefixUrl, now, tz, reply, convertUTCTime, t);
            session.State() == g.session && sent == g.sent && result == g.result
    ensures noPrefixUrl ==> session.State() == old(session.State())
  {
    result, sent := VerbHttpClient(session, Get, url, None, options, fullyTyped, noPrefixUrl, now, tz, reply, convertUTCTime, t);
  }

  method PutHttpClient(session: UserState, url: string, body: Option<string>, options: RequestConfig,
                       fullyTyped: bool, now: int, tz: int, reply: Option<ProviderReply>,
                       convertUTCTime: int -> string, t: Transport)
    returns (result: RequestResponse, sent: Option<SentRequest>)
    modifies session, options
    ensures var g := Gateway(old(session.State()), Put, url, body, old(options.headers), fullyTyped,
                             false, now, tz, reply, convertUTCTime, t);
            session.State() == g.session && sent == g.sent && result == g.result
  {
    result, sent := VerbHttpClient(session, Put, url, body, options, fullyTyped, false, now, tz, reply, convertUTCTime, t);
  }

  method DeleteHttpClient(session: UserState, url: string, body: Option<string>, options: RequestConfig,
                          fullyTyped: bool, now: int, tz: int, reply: Option<ProviderReply>,
                          convertUTCTime: int -> string, t: Transport)
    returns (result: RequestResponse, sent: Option<SentRequest>)
    modifies session, options
    ensures var g := Gateway(old(session.State()), Delete, url, body, old(options.headers), fullyTyped,
                             false, now, tz, reply, convertUTCTime, t);
            session.State() == g.session && sent == g.sent && result == g.result
  {
    result, sent := VerbHttpClient(session, Delete, url, body, options, fullyTyped, false, now, tz, reply, convertUTCTime, t);
  }

  // ---------------------------------------------------------------------
  // Properties of the gateway
  // ---------------------------------------------------------------------

  /**
   * The result shapes: data and no error when the network delivers; no
   * data and the error's response (possibly undefined) when it fails,
   * whichever catch branch handles it; neither when the coordinator throws.
   */
  lemma ResultShape(s: Session, verb: Verb, url: string, body: Option<string>, headers: Option<Headers>,
                    fullyTyped: bool, hasClient: bool, now: int, tz: int, reply: Option<ProviderReply>,
                    f: int -> string, t: Transport)
    ensures var g := Gateway(s, verb, url, body, headers, fullyTyped, hasClient, now, tz, reply, f, t);
            (g.sent.Some? && t.Delivered? ==> g.result == RequestResponse(t.response.data, None))
            && (g.sent.Some? && t.Failed? ==> g.result == RequestResponse(None, t.errorResponse))
            && (g.sent.None? ==> g.result == RequestResponse(None, None))
            && (g.sent.None? <==> !hasClient && Coordinate(s, now, tz, reply, f).outcome == Threw)
  {
  }

  /** Both catch branches produce the same result, so the status threshold is never observable. */
  lemma CatchBranchesAgree(resp: HttpResponse)
    ensures Classify(Failed(Some(resp))) == HandleErrors(Some(resp))
  {
  }

  /** With an explicit client the interceptor never runs: the session is untouched and no Authorization is added. */
  lemma ExplicitClientSkipsInterceptor(s: Session, verb: Verb, url: string, body: Option<string>,
                                       headers: Option<Headers>, fullyTyped: bool, now: int, tz: int,
                                       reply: Option<ProviderReply>, f: int -> string, t: Transport)
    ensures var g := Gateway(s, verb, url, body, headers, fullyTyped, true, now, tz, reply, f, t);
            g.session == s && g.sent.Some? && !g.sent.value.throughFactory
            && g.sent.value.headers == PreparedHeaders(headers, fullyTyped, true)
  {
  }

  /**
   * Through the factory client the request carries the JSON Content-Type
   * and, when the coordinator produced one, its Authorization header.
   */
  lemma FactoryRequestHeaders(s: Session, verb: Verb, url: string, body: Option<string>,
                              headers: Option<Headers>, fullyTyped: bool, now: int, tz: int,
                              reply: Option<ProviderReply>, f: int -> string, t: Transport)
    requires Coordinate(s, now, tz, reply, f).outcome != Threw
    ensures var g := Gateway(s, verb, url, body, headers, fullyTyped, false, now, tz, reply, f, t);
            var c := Coordinate(s, now, tz, reply, f);
            g.sent.Some? && g.sent.value.headers.Some?
            && ContentTypeKey in g.sent.value.headers.value
            && g.sent.value.headers.value[ContentTypeKey] == "application/json"
            && (c.authorization.Some? ==>
                  AuthorizationKey in g.sent.value.headers.value
                  && g.sent.value.headers.value[AuthorizationKey] == c.authorization.value)
            && g.session == c.session
  {
  }
}
