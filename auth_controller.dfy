/**
  The authentication handlers (src/controllers/auth.controller.js).

  Each handler is a pure function from the request, the stored users and the
  values it obtains from outside (the random state, the signed token, the
  bcrypt hash, the outcome of the passport strategy, the clock) to the
  response. The handlers that write to the store are also methods that take a
  `UserStore`, proved to answer with that function and to leave the store in
  the state the model statics describe.
*/
module AuthController {
  import opened Wrappers
  import opened Validators
  import opened UserModel
  import opened Http

  const StateCookie: string := "oauth_state"
  const StateCookieMaxAgeMs: int := 5 * 60 * 1000
  const TokenCookie: string := "token"
  const TokenCookieMaxAgeMs: int := 7 * 24 * 60 * 60 * 1000

  const AuthFailed: string := "Authentication failed"
  const PostAuthFailed: string := "Failed to process authenticated user"
  const InvalidState: string := "Invalid OAuth state"
  const UserNotFound: string := "User not found"
  const InvalidCredentials: string := "Invalid credentials"

  /** FRONTEND_URL and SEND_TOKEN_COOKIE, read from the environment on every request. */
  datatype Env = Env(frontendUrl: Option<string>, sendTokenCookie: Option<string>)

  /** Only the exact string 'true' turns cookie delivery on. */
  predicate TokenCookieMode(env: Env) {
    env.sendTokenCookie == Some("true")
  }

  // ---------------------------------------------------------------------------
  // googleAuth (lines 8-25)

  /** Sets the 5-minute state cookie and hands over to passport with the same state. */
  function GoogleAuth(state: string): (r: Response)
    ensures |r.cookies| == 1 && r.cookies[0].SetCookie? && r.cookies[0].name == StateCookie
    ensures r.cookies[0].maxAgeMs == 300000 && r.cookies[0].value == state
    ensures r.reply == ProviderRedirect(state)
  {
    Response([SetCookie(StateCookie, state, StateCookieMaxAgeMs)], ProviderRedirect(state))
  }

  // ---------------------------------------------------------------------------
  // googleCallback (lines 28-83)

  /** The CSRF check of line 33: a request is refused only when it carries a non-empty state cookie that the
      `state` query value does not echo; without such a cookie nothing is checked. */
  function StateRejected(cookie: Option<string>, query: Option<string>): (r: bool)
    ensures r ==> cookie.Some? && cookie.value != "" && query != cookie
    ensures !r ==> cookie.None? || cookie.value == "" || query == cookie
  {
    Truthy(cookie) && query != cookie
  }

  /** How the passport Google strategy ended: an error, no user, or a user document. */
  datatype Exchange = ProviderFailed | NoAccount | Authenticated(id: UserId)

  function SuccessUrl(frontend: string): string {
    frontend + "/auth/success"
  }

  function FragmentUrl(frontend: string, token: string): string {
    frontend + "/auth/success#token=" + token
  }

  /** What a front end reads from a redirect: the text after `<frontend>/auth/success#token=`, if the URL starts so. */
  function TokenInUrl(url: string, frontend: string): (r: Option<string>)
    ensures r.Some? ==> url == FragmentUrl(frontend, r.value)
    ensures r.None? ==> forall t :: url != FragmentUrl(frontend, t)
  {
    var prefix := FragmentUrl(frontend, "");
    if |prefix| <= |url| && url[..|prefix|] == prefix then
      assert url == prefix + url[|prefix|..];
      Some(url[|prefix|..])
    else
      assert forall t :: FragmentUrl(frontend, t) == prefix + t;
      None
  }

  /** A token put in the fragment is read back unchanged. */
  lemma FragmentRoundTrip(frontend: string, token: string)
    ensures TokenInUrl(FragmentUrl(frontend, token), frontend) == Some(token)
  {
  }

  /** The redirect of cookie mode carries no token. */
  lemma SuccessUrlCarriesNoToken(frontend: string)
    ensures TokenInUrl(SuccessUrl(frontend), frontend) == None
  {
  }

  /** Lines 54-73: the token goes to the front end in a cookie, in the URL fragment, or in the JSON body. */
  function Deliver(env: Env, token: string, u: User): (r: Response)
    ensures Truthy(env.frontendUrl) && TokenCookieMode(env) ==>
      && r.cookies == [SetCookie(TokenCookie, token, TokenCookieMaxAgeMs)]
      && r.reply == Redirect(SuccessUrl(env.frontendUrl.value))
      && TokenInUrl(r.reply.url, env.frontendUrl.value) == None
    ensures Truthy(env.frontendUrl) && !TokenCookieMode(env) ==>
      && r.cookies == []
      && r.reply.Redirect? && TokenInUrl(r.reply.url, env.frontendUrl.value) == Some(token)
    ensures !Truthy(env.frontendUrl) ==>
      && r.cookies == []
      && r.reply == Json(200, AuthSuccess(token, ToPublic(u, true)))
      && r.reply.body.user.email == Some(u.email)
  {
    if Truthy(env.frontendUrl) then
      var frontend := env.frontendUrl.value;
      if TokenCookieMode(env) then
        SuccessUrlCarriesNoToken(frontend);
        Response([SetCookie(TokenCookie, token, TokenCookieMaxAgeMs)], Redirect(SuccessUrl(frontend)))
      else
        FragmentRoundTrip(frontend, token);
        Response([], Redirect(FragmentUrl(frontend, token)))
    else
      Response([], Json(200, AuthSuccess(token, ToPublic(u, true))))
  }

  /** The callback's response. `token` is what generateToken returns for the user; `now` is the clock at updateLastLogin. */
  function CallbackResponse(users: map<UserId, User>, env: Env, cookie: Option<string>, query: Option<string>,
                            exchange: Exchange, token: string, now: Millis): (r: Response)
    ensures |r.cookies| >= 1 && r.cookies[0] == ClearCookie(StateCookie)
    ensures StateRejected(cookie, query) <==> r.reply == Json(403, Envelope(false, InvalidState))
    ensures StateRejected(cookie, query) ==> r.cookies == [ClearCookie(StateCookie)]
    ensures !StateRejected(cookie, query) && exchange.ProviderFailed? ==>
      r == Response([ClearCookie(StateCookie)], Json(500, Envelope(false, AuthFailed)))
    ensures !StateRejected(cookie, query) && exchange.NoAccount? ==>
      r == Response([ClearCookie(StateCookie)], Json(401, Envelope(false, AuthFailed)))
    ensures !StateRejected(cookie, query) && exchange.Authenticated? && exchange.id !in users ==>
      r == Response([ClearCookie(StateCookie)], Json(500, Envelope(false, PostAuthFailed)))
    ensures !StateRejected(cookie, query) && exchange.Authenticated? && exchange.id in users ==>
      var d := Deliver(env, token, users[exchange.id].(lastLogin := now));
      r == Response([ClearCookie(StateCookie)] + d.cookies, d.reply)
  {
    var clear := [ClearCookie(StateCookie)];
    if StateRejected(cookie, query) then Response(clear, Json(403, Envelope(false, InvalidState)))
    else
      match exchange
      case ProviderFailed => Response(clear, Json(500, Envelope(false, AuthFailed)))
      case NoAccount => Response(clear, Json(401, Envelope(false, AuthFailed)))
      case Authenticated(id) =>
        if id !in users then Response(clear, Json(500, Envelope(false, PostAuthFailed)))
        else
          var d := Deliver(env, token, users[id].(lastLogin := now));
          Response(clear + d.cookies, d.reply)
  }

  /** The state googleAuth stores in the cookie, echoed back by Google, passes the check. */
  lemma OwnStatePassesCheck(state: string)
    ensures !StateRejected(Some(GoogleAuth(state).cookies[0].value), Some(state))
  {
  }

  /** Without a state cookie (absent or empty) the query value is never looked at: any state, or none, is accepted. */
  lemma StateCheckNeedsCookie(users: map<UserId, User>, env: Env, cookie: Option<string>,
                               query1: Option<string>, query2: Option<string>,
                               exchange: Exchange, token: string, now: Millis)
    requires !Truthy(cookie)
    ensures CallbackResponse(users, env, cookie, query1, exchange, token, now)
         == CallbackResponse(users, env, cookie, query2, exchange, token, now)
  {
  }

  /** A provider error and a refused login tell the client the same thing; only the status differs. */
  lemma FailuresShareMessage(users: map<UserId, User>, env: Env, cookie: Option<string>, query: Option<string>,
                             token: string, now: Millis)
    requires !StateRejected(cookie, query)
    ensures var e := CallbackResponse(users, env, cookie, query, ProviderFailed, token, now).reply;
            var n := CallbackResponse(users, env, cookie, query, NoAccount, token, now).reply;
            e.Json? && n.Json? && e.body == n.body && e.status == 500 && n.status == 401
  {
  }

  // ---------------------------------------------------------------------------
  // login (lines 128-154)

  /** How the local strategy ended: an error, no user, or the id of the verified user. */
  datatype LocalOutcome = StrategyError | NoMatch | Verified(id: UserId)

  /** The reply of login; `info` is `info?.message` and `token` what generateToken returns. */
  function LoginResponse(users: map<UserId, User>, outcome: LocalOutcome, info: Option<string>, token: string): (r: Reply)
    ensures outcome.StrategyError? ==> r == Json(500, MessageOnly(Some(OrElse(info, "Server side error"))))
    ensures outcome.NoMatch? ==> r.Json? && (r.status == 401 <==> info == Some(InvalidCredentials))
    ensures outcome.NoMatch? && info == Some(InvalidCredentials) ==> r.body == MessageOnly(info)
    ensures outcome.NoMatch? && info != Some(InvalidCredentials) ==>
      r == Json(404, MessageOnly(Some(OrElse(info, UserNotFound))))
    ensures outcome.Verified? ==> (r.NoReply? <==> outcome.id !in users)
    ensures outcome.Verified? && outcome.id in users ==>
      var u := users[outcome.id];
      r == Json(200, LoggedIn(info, u.email, u.firstName, u.lastName, token))
  {
    match outcome
    case StrategyError => Json(500, MessageOnly(Some(OrElse(info, "Server side error"))))
    case NoMatch =>
      if info == Some(InvalidCredentials) then Json(401, MessageOnly(info))
      else Json(404, MessageOnly(Some(OrElse(info, UserNotFound))))
    case Verified(id) =>
      if id in users then
        var u := users[id];
        Json(200, LoggedIn(info, u.email, u.firstName, u.lastName, token))
      else NoReply
  }

  /** Login answers a wrong password and an unknown account with different statuses. */
  lemma LoginTellsWrongPasswordFromUnknownUser(users: map<UserId, User>, other: Option<string>, token: string)
    requires other != Some(InvalidCredentials)
    ensures LoginResponse(users, NoMatch, Some(InvalidCredentials), token).status == 401
    ensures LoginResponse(users, NoMatch, other, token).status == 404
  {
  }

  /** A successful login leaves lastLogin as it was: login reads the store and never writes it. */
  lemma LoginBodyIgnoresLastLogin(users: map<UserId, User>, id: UserId, info: Option<string>, token: string, t: Millis)
    requires id in users
    ensures LoginResponse(users, Verified(id), info, token)
         == LoginResponse(users[id := users[id].(lastLogin := t)], Verified(id), info, token)
  {
  }

  // ---------------------------------------------------------------------------
  // getProfile (lines 86-97) and refreshToken (lines 114-126)

  function GetProfile(users: map<UserId, User>, userId: Option<UserId>): (r: Reply)
    ensures r.Json? && (r.status == 404 <==> Lookup(users, userId).None?)
    ensures Lookup(users, userId).None? ==> r.body == Envelope(false, UserNotFound)
    ensures Lookup(users, userId).Some? ==>
      var u := Lookup(users, userId).value;
      r == Json(200, ProfileBody(ToPublic(u, true))) && r.body.user.email == Some(u.email)
  {
    match Lookup(users, userId)
    case None => Json(404, Envelope(false, UserNotFound))
    case Some(u) => Json(200, ProfileBody(ToPublic(u, true)))
  }

  function RefreshToken(users: map<UserId, User>, userId: Option<UserId>, token: string): (r: Reply)
    ensures r.Json? && (r.status == 404 <==> Lookup(users, userId).None?)
    ensures Lookup(users, userId).None? ==> r.body == Envelope(false, UserNotFound)
    ensures Lookup(users, userId).Some? ==> r == Json(200, TokenRefreshed(token))
  {
    if Lookup(users, userId).None? then Json(404, Envelope(false, UserNotFound))
    else Json(200, TokenRefreshed(token))
  }

  // ---------------------------------------------------------------------------
  // logout (lines 100-111)

  /** Logout always answers 200, and clears the token cookie only in cookie mode. */
  function LogoutResponse(env: Env): (r: Response)
    ensures r.reply == Json(200, Envelope(true, "Logout successful. Tokens invalidated on server."))
    ensures ClearCookie(TokenCookie) in r.cookies <==> TokenCookieMode(env)
    ensures |r.cookies| <= 1
  {
    Response(if TokenCookieMode(env) then [ClearCookie(TokenCookie)] else [],
             Json(200, Envelope(true, "Logout successful. Tokens invalidated on server.")))
  }

  // ---------------------------------------------------------------------------
  // signUp (lines 156-193)

  /** The errors signUp passes to `next`. */
  datatype SignUpError =
    | RequiredDetailsMissing          // line 160
    | AlreadyExists                   // line 169
    | HashFailed                      // bcrypt.hash refuses an absent password
    | CreateFailed(error: StoreError) // User.create throws

  /** Every error handed to `next`, in order; the reply signUp itself sends; the record it creates. */
  datatype SignUpOutcome = SignUpOutcome(forwarded: seq<SignUpError>, reply: Reply, created: Option<User>)

  /** The guard of line 159: one of the five fields is falsy. */
  function DetailsMissing(b: NewUser): (r: bool)
    ensures !r <==> && b.email.Some? && b.email.value != "" && b.name.Some? && b.name.value != ""
                    && b.firstName.Some? && b.firstName.value != "" && b.lastName.Some? && b.lastName.value != ""
                    && b.password.Some? && b.password.value != ""
  {
    !Truthy(b.email) || !Truthy(b.name) || !Truthy(b.firstName) || !Truthy(b.lastName) || !Truthy(b.password)
  }

  /** The `$or` lookup of lines 164-166: some stored record has the body's email or its name; an absent field matches no record. */
  function NameOrEmailTaken(users: map<UserId, User>, b: NewUser): (r: bool)
    ensures r <==> exists id | id in users :: Some(users[id].email) == b.email || Some(users[id].name) == b.name
  {
    exists id | id in users :: (b.email.Some? && users[id].email == b.email.value) || (b.name.Some? && users[id].name == b.name.value)
  }

  /** The lookup catches every email or name conflict `create` would meet; only a googleId carried in the body
      can still clash in `create`. */
  lemma TakenLookupCoversEmailAndName(users: map<UserId, User>, nextId: UserId, b: NewUser, hash: string, now: Millis)
    requires nextId !in users && SchemaErrors(Hashed(b, hash)) == {}
    ensures NameOrEmailTaken(users, b) ==> Clashes(users, Materialize(Hashed(b, hash), nextId, now))
    ensures !NameOrEmailTaken(users, b) && Clashes(users, Materialize(Hashed(b, hash), nextId, now)) ==>
      b.googleId.Some? && exists k | k in users :: users[k].googleId == b.googleId
  {
    var u := Materialize(Hashed(b, hash), nextId, now);
    if NameOrEmailTaken(users, b) {
      var id :| id in users && (Some(users[id].email) == b.email || Some(users[id].name) == b.name);
      assert SharesKey(u, users[id]);
    }
  }

  /** `{...req.body, password: hashedPassword}` (lines 173-176). */
  function Hashed(b: NewUser, hash: string): (d: NewUser)
    ensures d.password == Some(hash) && d == b.(password := d.password)
  {
    b.(password := Some(hash))
  }

  function SignedUpReply(b: NewUser): Reply {
    Json(201, SignedUp(b.name, b.email, b.firstName, b.lastName))
  }

  /** signUp as written: the guard calls `next` but does not return, so the handler goes on. `hash` is bcrypt's output. */
  function SignUpResult(users: map<UserId, User>, nextId: UserId, b: NewUser, hash: string, now: Millis): (o: SignUpOutcome)
    ensures DetailsMissing(b) <==> |o.forwarded| > 0 && o.forwarded[0] == RequiredDetailsMissing
    ensures o.created.Some? <==> o.reply.Json?
    ensures o.created.Some? ==>
      && !NameOrEmailTaken(users, b) && b.password.Some?
      && CreateResult(users, nextId, Hashed(b, hash), now) == Ok(o.created.value)
      && o.created.value.password == Some(hash)
      && o.reply == SignedUpReply(b)
    ensures NameOrEmailTaken(users, b) ==> o.created.None? && |o.forwarded| > 0 && o.forwarded[|o.forwarded| - 1] == AlreadyExists
    ensures !NameOrEmailTaken(users, b) && b.password.None? ==>
      o.created.None? && |o.forwarded| > 0 && o.forwarded[|o.forwarded| - 1] == HashFailed
    ensures !NameOrEmailTaken(users, b) && b.password.Some? ==>
      var c := CreateResult(users, nextId, Hashed(b, hash), now);
      && (o.created.Some? <==> c.Ok?)
      && (c.Err? ==> |o.forwarded| > 0 && o.forwarded[|o.forwarded| - 1] == CreateFailed(c.error))
    ensures o.created.None? ==> o.reply.NoReply? && |o.forwarded| > 0
    ensures |o.forwarded| == (if DetailsMissing(b) then 1 else 0) + (if o.created.Some? then 0 else 1)
  {
    var guard := if DetailsMissing(b) then [RequiredDetailsMissing] else [];
    if NameOrEmailTaken(users, b) then SignUpOutcome(guard + [AlreadyExists], NoReply, None)
    else if b.password.None? then SignUpOutcome(guard + [HashFailed], NoReply, None)
    else
      match CreateResult(users, nextId, Hashed(b, hash), now)
      case Err(e) => SignUpOutcome(guard + [CreateFailed(e)], NoReply, None)
      case Ok(u) => SignUpOutcome(guard, SignedUpReply(b), Some(u))
  }

  /** As written, a request the guard refuses (an empty password) is still stored once the hash passes the schema. */
  lemma AsWrittenStoresRefusedRequest(users: map<UserId, User>, nextId: UserId, b: NewUser, hash: string, now: Millis)
    requires b.password == Some("")
    requires !NameOrEmailTaken(users, b)
    requires SchemaErrors(Hashed(b, hash)) == {}
    requires !Clashes(users, Materialize(Hashed(b, hash), nextId, now))
    ensures var o := SignUpResult(users, nextId, b, hash, now);
            o.forwarded == [RequiredDetailsMissing] && o.created.Some? && o.reply == SignedUpReply(b)
  {
  }

  /** With the guard returning, a complete body with a fresh email and name whose hashed object passes the
      schema and the unique indexes is stored, and nothing is forwarded. */
  lemma GuardedSignUpStoresFreshBody(users: map<UserId, User>, nextId: UserId, b: NewUser, hash: string, now: Millis)
    requires !DetailsMissing(b) && !NameOrEmailTaken(users, b)
    requires SchemaErrors(Hashed(b, hash)) == {} && !Clashes(users, Materialize(Hashed(b, hash), nextId, now))
    ensures SignUpGuarded(users, nextId, b, hash, now)
         == SignUpOutcome([], SignedUpReply(b), Some(Materialize(Hashed(b, hash), nextId, now)))
  {
  }

  /** As written, a request missing a field still reaches the uniqueness check, and `next` is called twice. */
  lemma AsWrittenChecksTakenAfterGuard(users: map<UserId, User>, nextId: UserId, b: NewUser, hash: string, now: Millis)
    requires DetailsMissing(b) && NameOrEmailTaken(users, b)
    ensures SignUpResult(users, nextId, b, hash, now).forwarded == [RequiredDetailsMissing, AlreadyExists]
  {
  }

  /** signUp with `return` after `next` at line 160: a refused request stops there. */
  function SignUpGuarded(users: map<UserId, User>, nextId: UserId, b: NewUser, hash: string, now: Millis): (o: SignUpOutcome)
    ensures DetailsMissing(b) ==> o == SignUpOutcome([RequiredDetailsMissing], NoReply, None)
    ensures !DetailsMissing(b) ==> o == SignUpResult(users, nextId, b, hash, now)
    ensures o.created.Some? <==> o.forwarded == []
    ensures o.created.None? ==> |o.forwarded| == 1 && o.reply.NoReply?
    ensures o.created.Some? ==>
      && !DetailsMissing(b) && !NameOrEmailTaken(users, b)
      && CreateResult(users, nextId, Hashed(b, hash), now) == Ok(o.created.value)
      && o.reply == SignedUpReply(b)
  {
    if DetailsMissing(b) then SignUpOutcome([RequiredDetailsMissing], NoReply, None)
    else SignUpResult(users, nextId, b, hash, now)
  }

  /** The schema checks the stored hash against the plain-password rule: a hash holding a character outside
      `[A-Za-z\d@$!%*?&]`, such as the `.` and `/` of bcrypt's alphabet, makes signUp fail with a validation error. */
  lemma SignUpRejectsHashWithForeignChar(users: map<UserId, User>, nextId: UserId, b: NewUser,
                                          hash: string, now: Millis, i: nat)
    requires !DetailsMissing(b) && !NameOrEmailTaken(users, b)
    requires i < |hash| && !PasswordChar.Contains(hash[i])
    ensures var o := SignUpResult(users, nextId, b, hash, now);
            o.created.None? && o.forwarded[0].CreateFailed? && o.forwarded[0].error.ValidationFailed?
            && PasswordPath in o.forwarded[0].error.paths
  {
  }

  /** A bcrypt hash of cost 12 (written as three pieces around its first `/`) never passes validatePassword. */
  lemma SampleHashRefused()
    ensures !ValidatePassword("$2a$12$R9h" + "/" + "cIPz0gi.URNNX3kh2OPST9/PgBkqquzi.Ss7KIUgO2t0jWMUW")
  {
    var head := "$2a$12$R9h";
    var h := head + "/" + "cIPz0gi.URNNX3kh2OPST9/PgBkqquzi.Ss7KIUgO2t0jWMUW";
    assert |head| == 10;
    assert h[10] == '/';
    PasswordRefusesForeignChar(h, 10);
  }

  // ---------------------------------------------------------------------------
  // The handlers that write to the store.

  /** googleCallback: check the state, then update lastLogin of the authenticated user and deliver the token. */
  method GoogleCallback(store: UserStore, env: Env, cookie: Option<string>, query: Option<string>,
                        exchange: Exchange, token: string, now: Millis) returns (r: Response)
    requires store.Valid()
    modifies store
    ensures store.Valid()
    ensures r == CallbackResponse(old(store.users), env, cookie, query, exchange, token, now)
    ensures store.users ==
      if !StateRejected(cookie, query) && exchange.Authenticated? && exchange.id in old(store.users)
      then old(store.users)[exchange.id := old(store.users)[exchange.id].(lastLogin := now)]
      else old(store.users)
  {
    var clear := [ClearCookie(StateCookie)];
    if StateRejected(cookie, query) {
      return Response(clear, Json(403, Envelope(false, InvalidState)));
    }
    match exchange {
      case ProviderFailed =>
        r := Response(clear, Json(500, Envelope(false, AuthFailed)));
      case NoAccount =>
        r := Response(clear, Json(401, Envelope(false, AuthFailed)));
      case Authenticated(id) =>
        var saved := store.UpdateLastLogin(id, now);
        if !saved {
          r := Response(clear, Json(500, Envelope(false, PostAuthFailed)));
        } else {
          var d := Deliver(env, token, store.users[id]);
          r := Response(clear + d.cookies, d.reply);
        }
    }
  }

  /** logout: bump the caller's token version, which retires every token issued before. */
  method Logout(store: UserStore, env: Env, userId: Option<UserId>) returns (r: Response)
    requires store.Valid()
    modifies store
    ensures store.Valid()
    ensures r == LogoutResponse(env)
    ensures userId.Some? && userId.value in old(store.users) ==>
      store.users == old(store.users)[userId.value := old(store.users)[userId.value].(tokenVersion := old(store.users)[userId.value].tokenVersion + 1)]
    ensures (userId.None? || userId.value !in old(store.users)) ==> store.users == old(store.users)
  {
    var _ := store.IncrementTokenVersion(userId);
    r := LogoutResponse(env);
  }

  /** signUp as written: creates the record through the store when every later check passes. */
  method SignUp(store: UserStore, b: NewUser, hash: string, now: Millis) returns (o: SignUpOutcome)
    requires store.Valid()
    modifies store
    ensures store.Valid()
    ensures o == SignUpResult(old(store.users), old(store.nextId), b, hash, now)
    ensures o.created.Some? ==> store.users == old(store.users)[o.created.value.id := o.created.value]
    ensures o.created.None? ==> store.users == old(store.users)
  {
    var guard := if DetailsMissing(b) then [RequiredDetailsMissing] else [];
    if NameOrEmailTaken(store.users, b) {
      return SignUpOutcome(guard + [AlreadyExists], NoReply, None);
    }
    if b.password.None? {
      return SignUpOutcome(guard + [HashFailed], NoReply, None);
    }
    var r := store.Create(Hashed(b, hash), now);
    match r {
      case Err(e) => o := SignUpOutcome(guard + [CreateFailed(e)], NoReply, None);
      case Ok(u) => o := SignUpOutcome(guard, SignedUpReply(b), Some(u));
    }
  }
}
