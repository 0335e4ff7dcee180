/**
  The user record and its store (src/models/user.model.js).

  The Mongoose model becomes a class holding a map from id to record. The
  schema's validators, defaults and unique indexes are stated explicitly:
  `Create` validates and checks uniqueness the way `Model.create` does, and
  the statics are methods that change the map. The clock and the random
  token of `createPendingGoogleLink` are parameters.
*/
module UserModel {
  import opened Wrappers
  import opened Validators
  import opened Units

  type UserId = nat

  /** A `Date`, as milliseconds since the epoch. */
  type Millis = int

  /** Lifetime of a pending link when the caller gives none (user.model.js:162). */
  const DefaultLinkTtlMinutes: int := 15

  datatype Provider = Local | Google

  /** The schema's `authProvider` enum: 'local' or 'google', 'local' when absent (user.model.js:53-58). */
  function ParseProvider(s: Option<string>): (r: Option<Provider>)
    ensures r == Some(Local) <==> s.None? || s == Some("local")
    ensures r == Some(Google) <==> s == Some("google")
  {
    match s
    case None => Some(Local)
    case Some(v) => if v == "local" then Some(Local) else if v == "google" then Some(Google) else None
  }

  function ProviderName(p: Provider): string {
    match p
    case Local => "local"
    case Google => "google"
  }

  datatype PendingLink = PendingLink(token: string, googleId: string, expiresAt: Millis)

  /** A stored user document. `profilePicture` None is the schema default `null`. */
  datatype User = User(
    id: UserId,
    googleId: Option<string>,
    email: string,
    name: string,
    firstName: string,
    lastName: string,
    password: Option<string>,
    profilePicture: Option<string>,
    authProvider: Provider,
    isActive: bool,
    lastLogin: Millis,
    pendingGoogleLink: Option<PendingLink>,
    tokenVersion: int,
    createdAt: Millis)

  /** The plain object handed to `Model.create`; None is a key that is absent or undefined. */
  datatype NewUser = NewUser(
    email: Option<string>,
    name: Option<string>,
    firstName: Option<string>,
    lastName: Option<string>,
    password: Option<string>,
    profilePicture: Option<string>,
    authProvider: Option<string>,
    googleId: Option<string>,
    isActive: Option<bool>,
    lastLogin: Option<Millis>,
    pendingGoogleLink: Option<PendingLink>,
    tokenVersion: Option<int>)

  /** Schema paths that carry a validator. */
  datatype Path = EmailPath | NamePath | FirstNamePath | LastNamePath | PasswordPath | AuthProviderPath

  datatype StoreError =
    | GoogleProfileMissingEmail            // the Error thrown at user.model.js:141
    | ValidationFailed(paths: set<Path>)   // a Mongoose ValidationError
    | DuplicateKey                         // a unique-index violation

  /** The password path fails: required for local accounts (lines 40-43), and validatePassword on any value (lines 44-47). */
  predicate PasswordRejected(d: NewUser) {
    match d.password
    case None => ParseProvider(d.authProvider) == Some(Local)
    case Some(p) => !ValidatePassword(p)
  }

  /** The validator on path `p` refuses `d`. */
  predicate PathFails(d: NewUser, p: Path) {
    match p
    case EmailPath => !Truthy(d.email) || !ValidateEmail(d.email.value)
    case NamePath => !Truthy(d.name)
    case FirstNamePath => !Truthy(d.firstName)
    case LastNamePath => !Truthy(d.lastName)
    case AuthProviderPath => ParseProvider(d.authProvider).None?
    case PasswordPath => PasswordRejected(d)
  }

  const AllPaths: set<Path> := {EmailPath, NamePath, FirstNamePath, LastNamePath, PasswordPath, AuthProviderPath}

  /** The paths whose validators refuse `d`: `required` (an absent or empty string fails it), the enum and the two custom validators. */
  function SchemaErrors(d: NewUser): (errs: set<Path>)
    ensures EmailPath !in errs <==> Truthy(d.email) && ValidateEmail(d.email.value)
    ensures NamePath !in errs <==> Truthy(d.name)
    ensures FirstNamePath !in errs <==> Truthy(d.firstName)
    ensures LastNamePath !in errs <==> Truthy(d.lastName)
    ensures AuthProviderPath !in errs <==> ParseProvider(d.authProvider).Some?
    ensures PasswordPath !in errs <==> !PasswordRejected(d)
  {
    set p | p in AllPaths && PathFails(d, p)
  }

  /** What every stored record satisfies: a local account has a password, and a password passes validatePassword. */
  predicate RecordInvariant(u: User) {
    && (u.authProvider == Local ==> u.password.Some?)
    && (u.password.Some? ==> ValidatePassword(u.password.value))
  }

  /** The document `create` stores for valid data: every given field kept, the schema defaults filled in (lines 49-77). */
  function Materialize(d: NewUser, id: UserId, now: Millis): (u: User)
    requires SchemaErrors(d) == {}
    ensures RecordInvariant(u) && ValidateEmail(u.email)
    ensures u.password.Some? ==> ValidatePassword(u.password.value)
    ensures u.id == id && u.createdAt == now
    ensures d.tokenVersion.None? ==> u.tokenVersion == 0
    ensures d.tokenVersion.Some? ==> u.tokenVersion == d.tokenVersion.value
    ensures d.isActive.None? ==> u.isActive
    ensures d.isActive.Some? ==> u.isActive == d.isActive.value
    ensures d.lastLogin.None? ==> u.lastLogin == now
    ensures d.lastLogin.Some? ==> u.lastLogin == d.lastLogin.value
    ensures d.authProvider.None? || d.authProvider == Some("local") ==> u.authProvider == Local
    ensures d.authProvider == Some("google") ==> u.authProvider == Google
    ensures Some(u.email) == d.email && Some(u.name) == d.name && u.password == d.password && u.googleId == d.googleId
    ensures Some(u.firstName) == d.firstName && Some(u.lastName) == d.lastName && u.profilePicture == d.profilePicture
    ensures u.pendingGoogleLink == d.pendingGoogleLink
  {
    User(
      id := id,
      googleId := d.googleId,
      email := d.email.value,
      name := d.name.value,
      firstName := d.firstName.value,
      lastName := d.lastName.value,
      password := d.password,
      profilePicture := d.profilePicture,
      authProvider := ParseProvider(d.authProvider).value,
      isActive := d.isActive.GetOr(true),
      lastLogin := d.lastLogin.GetOr(now),
      pendingGoogleLink := d.pendingGoogleLink,
      tokenVersion := d.tokenVersion.GetOr(0),
      createdAt := now)
  }

  // ---------------------------------------------------------------------------
  // Unique indexes (lines 6-27): email, name, and googleId where present.

  predicate SharesKey(u: User, v: User) {
    u.email == v.email || u.name == v.name || (u.googleId.Some? && u.googleId == v.googleId)
  }

  /** The three unique indexes hold: no two records share an email, a name or a present googleId. */
  function Unique(users: map<UserId, User>): (r: bool)
    ensures r ==> forall a, b | a in users && b in users && a != b ::
      users[a].email != users[b].email && users[a].name != users[b].name
    ensures r ==> forall a, b | a in users && b in users && a != b && users[a].googleId.Some? ::
      users[a].googleId != users[b].googleId
    ensures !r ==> exists a, b | a in users && b in users && a != b :: SharesKey(users[a], users[b])
  {
    forall a, b | a in users && b in users && a != b :: !SharesKey(users[a], users[b])
  }

  /** Writing `u` would violate a unique index held by another record. */
  function Clashes(users: map<UserId, User>, u: User): (r: bool)
    ensures !r ==> forall k | k in users && k != u.id ::
      users[k].email != u.email && users[k].name != u.name && (u.googleId.Some? ==> users[k].googleId != u.googleId)
    ensures r ==> exists k | k in users && k != u.id :: SharesKey(u, users[k])
  {
    exists k | k in users && k != u.id :: SharesKey(u, users[k])
  }

  predicate SameKeys(u: User, v: User) {
    u.email == v.email && u.name == v.name && u.googleId == v.googleId
  }

  lemma WriteKeepsUnique(users: map<UserId, User>, u: User)
    requires Unique(users) && !Clashes(users, u)
    ensures Unique(users[u.id := u])
  {
  }

  lemma SameKeysNoClash(users: map<UserId, User>, u: User)
    requires Unique(users) && u.id in users && SameKeys(u, users[u.id])
    ensures !Clashes(users, u)
  {
  }

  // ---------------------------------------------------------------------------
  // Pure parts of the statics.

  /** The outcome of `Model.create(d)` on the records `users`, with `id` as the new id. */
  function CreateResult(users: map<UserId, User>, id: UserId, d: NewUser, now: Millis): (r: Result<User, StoreError>)
    ensures SchemaErrors(d) != {} ==> r == Err(ValidationFailed(SchemaErrors(d)))
    ensures r.Ok? ==> SchemaErrors(d) == {} && r.value == Materialize(d, id, now) && !Clashes(users, r.value)
    ensures SchemaErrors(d) == {} && !Clashes(users, Materialize(d, id, now)) ==> r == Ok(Materialize(d, id, now))
    ensures SchemaErrors(d) == {} && !r.Ok? ==> r == Err(DuplicateKey)
  {
    if SchemaErrors(d) != {} then Err(ValidationFailed(SchemaErrors(d)))
    else
      var u := Materialize(d, id, now);
      if Clashes(users, u) then Err(DuplicateKey) else Ok(u)
  }

  /** A Google profile as passport hands it over: the first email and photo values, the names. */
  datatype GoogleProfile = GoogleProfile(
    email: Option<string>,
    displayName: Option<string>,
    givenName: Option<string>,
    familyName: Option<string>,
    photo: Option<string>)

  /** The `data` object of findOrCreateFromGoogle (lines 142-149): missing names and photo become ''. */
  function GoogleData(p: GoogleProfile): (d: NewUser)
    ensures d.email == p.email && d.authProvider == Some("google")
    ensures d.name == Some(OrElse(p.displayName, "")) && d.profilePicture == Some(OrElse(p.photo, ""))
    ensures d.firstName == Some(OrElse(p.givenName, "")) && d.lastName == Some(OrElse(p.familyName, ""))
    ensures d.password.None? && d.googleId.None? && d.tokenVersion.None? && d.isActive.None?
    ensures d.lastLogin.None? && d.pendingGoogleLink.None?
  {
    NewUser(
      email := p.email,
      name := Some(OrElse(p.displayName, "")),
      firstName := Some(OrElse(p.givenName, "")),
      lastName := Some(OrElse(p.familyName, "")),
      password := None,
      profilePicture := Some(OrElse(p.photo, "")),
      authProvider := Some("google"),
      googleId := None,
      isActive := None,
      lastLogin := None,
      pendingGoogleLink := None,
      tokenVersion := None)
  }

  /** A record created from a Google profile is a Google account without a password; a profile lacking a
      display name, a given name or a family name cannot be stored, since those become '' and fail `required`. */
  lemma GoogleCreateOutcome(users: map<UserId, User>, id: UserId, p: GoogleProfile, now: Millis)
    requires Truthy(p.email)
    ensures var r := CreateResult(users, id, GoogleData(p), now);
      && (r.Ok? ==> r.value.authProvider == Google && r.value.password.None? && r.value.tokenVersion == 0
                    && Some(r.value.email) == p.email && r.value.googleId.None?)
      && (!Truthy(p.displayName) || !Truthy(p.givenName) || !Truthy(p.familyName) ==> r.Err? && r.error.ValidationFailed?)
  {
  }

  /** The `$set: data` applied to an existing record (line 155); no validator runs on this update. */
  function ApplyGoogleProfile(u: User, p: GoogleProfile): (v: User)
    ensures v.authProvider == Google
    ensures v.name == OrElse(p.displayName, "") && v.firstName == OrElse(p.givenName, "")
    ensures v.lastName == OrElse(p.familyName, "") && v.profilePicture == Some(OrElse(p.photo, ""))
    ensures v.password == u.password && v.tokenVersion == u.tokenVersion && v.googleId == u.googleId
    ensures v.id == u.id && v.email == u.email && v.pendingGoogleLink == u.pendingGoogleLink
    ensures v.isActive == u.isActive && v.lastLogin == u.lastLogin && v.createdAt == u.createdAt
  {
    u.(name := OrElse(p.displayName, ""),
       firstName := OrElse(p.givenName, ""),
       lastName := OrElse(p.familyName, ""),
       profilePicture := Some(OrElse(p.photo, "")),
       authProvider := Google)
  }

  /** `expiresAt` of a new pending link: `ttlMinutes` after `now`, 15 minutes when not given (line 164). */
  function LinkExpiry(now: Millis, ttlMinutes: Option<int>): (expiresAt: Millis)
    ensures ttlMinutes.None? ==> expiresAt - now == 15 * 60 * 1000
    ensures ttlMinutes.Some? ==> expiresAt - now == ttlMinutes.value * 60 * 1000
  {
    now + ttlMinutes.GetOr(DefaultLinkTtlMinutes) * MsPerMinute
  }

  /** The record `id` holds a pending link with token `t`. */
  predicate HoldsToken(users: map<UserId, User>, id: UserId, t: string) {
    id in users && users[id].pendingGoogleLink.Some? && users[id].pendingGoogleLink.value.token == t
  }

  /** At most one record holds a pending link with token `t`. */
  predicate SingleHolder(users: map<UserId, User>, t: string) {
    forall a, b | a in users && b in users && HoldsToken(users, a, t) && HoldsToken(users, b, t) :: a == b
  }

  /** Clearing the pending link of the only holder of `t` leaves no holder of `t`. */
  lemma ClearingReleasesToken(users: map<UserId, User>, id: UserId, u: User, t: string, after: map<UserId, User>)
    requires HoldsToken(users, id, t) && SingleHolder(users, t) && u.pendingGoogleLink.None?
    requires after == users[id := u]
    ensures forall k :: !HoldsToken(after, k, t)
  {
  }

  datatype LinkOutcome = LinkOutcome(user: User, accepted: bool)

  /** Confirming the pending link of `u` at time `now` (lines 174-183). */
  function ConfirmLink(u: User, now: Millis): (r: LinkOutcome)
    requires u.pendingGoogleLink.Some?
    ensures r.accepted <==> now <= u.pendingGoogleLink.value.expiresAt
    ensures r.user.pendingGoogleLink.None?
    ensures r.user.googleId == if r.accepted then Some(u.pendingGoogleLink.value.googleId) else u.googleId
    ensures r.user == u.(googleId := r.user.googleId, pendingGoogleLink := None)
  {
    var link := u.pendingGoogleLink.value;
    if link.expiresAt < now then LinkOutcome(u.(pendingGoogleLink := None), false)
    else LinkOutcome(u.(googleId := Some(link.googleId), pendingGoogleLink := None), true)
  }

  function Lookup(users: map<UserId, User>, id: Option<UserId>): (r: Option<User>)
    ensures r.Some? <==> id.Some? && id.value in users
    ensures r.Some? ==> r.value == users[id.value]
  {
    if id.Some? && id.value in users then Some(users[id.value]) else None
  }

  // ---------------------------------------------------------------------------
  // Projections: toPublic (lines 105-118) and the toJSON transform (lines 121-136).

  /** The object toPublic returns; `email` None is `undefined`, which JSON omits. */
  datatype PublicUser = PublicUser(
    id: UserId,
    name: string,
    firstName: string,
    lastName: string,
    profilePicture: Option<string>,
    authProvider: Provider,
    isActive: bool,
    createdAt: Millis,
    lastLogin: Millis,
    email: Option<string>)

  function ToPublic(u: User, showEmail: bool): (p: PublicUser)
    ensures p.email.Some? <==> showEmail
    ensures showEmail ==> p.email == Some(u.email)
    ensures p.id == u.id && p.name == u.name && p.firstName == u.firstName && p.lastName == u.lastName
    ensures p.profilePicture == u.profilePicture && p.authProvider == u.authProvider
    ensures p.isActive == u.isActive && p.createdAt == u.createdAt && p.lastLogin == u.lastLogin
  {
    PublicUser(u.id, u.name, u.firstName, u.lastName, u.profilePicture, u.authProvider,
               u.isActive, u.createdAt, u.lastLogin, if showEmail then Some(u.email) else None)
  }

  /** toPublic never depends on the password, the token version, the googleId or the pending link. */
  lemma ToPublicHidesSecrets(u: User, password: Option<string>, tokenVersion: int,
                             googleId: Option<string>, link: Option<PendingLink>, showEmail: bool)
    ensures ToPublic(u, showEmail)
         == ToPublic(u.(password := password, tokenVersion := tokenVersion,
                        googleId := googleId, pendingGoogleLink := link), showEmail)
  {
  }

  /** A JSON-like value, as the `ret` object of a toJSON transform holds it. */
  datatype Value = Str(s: string) | Num(n: int) | Bool(b: bool) | Null | ObjectId(oid: nat) | Obj(fields: map<string, Value>)

  predicate IsTruthy(v: Value) {
    match v
    case Str(s) => s != ""
    case Num(n) => n != 0
    case Bool(b) => b
    case Null => false
    case ObjectId(_) => true
    case Obj(_) => true
  }

  /** The keys the transform deletes outright. */
  const RemovedKeys: set<string> := {"__v", "pendingGoogleLink", "tokenVersion", "googleId"}

  /** The toJSON transform: drop the internal keys, and rename a truthy `_id` to `id`. */
  function ToJsonTransform(ret: map<string, Value>): (out: map<string, Value>)
    ensures forall k | k in RemovedKeys :: k !in out
    ensures "password" in ret ==> "password" in out && out["password"] == ret["password"]
    ensures forall k | k in ret && k !in RemovedKeys && k != "_id" && k != "id" :: k in out && out[k] == ret[k]
    ensures "_id" in ret && IsTruthy(ret["_id"]) ==> "_id" !in out && "id" in out && out["id"] == ret["_id"]
    ensures !("_id" in ret && IsTruthy(ret["_id"])) ==> out == ret - RemovedKeys
    ensures out.Keys <= (ret.Keys - RemovedKeys) + {"id"}
  {
    var kept := ret - RemovedKeys;
    if "_id" in kept && IsTruthy(kept["_id"]) then (kept - {"_id"})["id" := kept["_id"]] else kept
  }

  function LinkValue(link: PendingLink): Value {
    Obj(map["token" := Str(link.token), "googleId" := Str(link.googleId), "expiresAt" := Num(link.expiresAt)])
  }

  /** The `ret` object Mongoose builds for a stored user before the transform runs. */
  function Document(u: User): (ret: map<string, Value>)
    ensures "_id" in ret && ret["_id"] == ObjectId(u.id)
    ensures "password" in ret <==> u.password.Some?
  {
    var base := map[
      "_id" := ObjectId(u.id),
      "__v" := Num(0),
      "email" := Str(u.email),
      "name" := Str(u.name),
      "firstName" := Str(u.firstName),
      "lastName" := Str(u.lastName),
      "profilePicture" := (if u.profilePicture.Some? then Str(u.profilePicture.value) else Null),
      "authProvider" := Str(ProviderName(u.authProvider)),
      "isActive" := Bool(u.isActive),
      "lastLogin" := Num(u.lastLogin),
      "tokenVersion" := Num(u.tokenVersion),
      "createdAt" := Num(u.createdAt)];
    var withPassword := if u.password.Some? then base["password" := Str(u.password.value)] else base;
    var withGoogle := if u.googleId.Some? then withPassword["googleId" := Str(u.googleId.value)] else withPassword;
    if u.pendingGoogleLink.Some? then withGoogle["pendingGoogleLink" := LinkValue(u.pendingGoogleLink.value)] else withGoogle
  }

  /** Serialising a user hides the token version, the googleId and the pending link, renames `_id`,
      and keeps the password (hash) whenever the record has one. */
  lemma SerializedUserKeepsPassword(u: User)
    ensures var out := ToJsonTransform(Document(u));
      && ("password" in out <==> u.password.Some?)
      && (u.password.Some? ==> out["password"] == Str(u.password.value))
      && "tokenVersion" !in out && "googleId" !in out && "pendingGoogleLink" !in out && "__v" !in out
      && "_id" !in out && "id" in out && out["id"] == ObjectId(u.id)
  {
  }

  // ---------------------------------------------------------------------------
  // The store.

  class UserStore {
    var users: map<UserId, User>
    var nextId: UserId

    ghost predicate Valid()
      reads this
    {
      && (forall id | id in users :: users[id].id == id && id < nextId && RecordInvariant(users[id]))
      && Unique(users)
    }

    constructor ()
      ensures Valid() && users == map[] && nextId == 0
    {
      users := map[];
      nextId := 0;
    }

    /** `Model.create(d)`: validate, check the unique indexes, insert with a fresh id. */
    method Create(d: NewUser, now: Millis) returns (r: Result<User, StoreError>)
      requires Valid()
      modifies this
      ensures Valid()
      ensures r == CreateResult(old(users), old(nextId), d, now)
      ensures r.Ok? ==> r.value.id !in old(users) && users == old(users)[r.value.id := r.value]
      ensures r.Err? ==> users == old(users)
    {
      r := CreateResult(users, nextId, d, now);
      if r.Ok? {
        WriteKeepsUnique(users, r.value);
        users := users[nextId := r.value];
        nextId := nextId + 1;
      }
    }

    /** findOrCreateFromGoogle (lines 139-159). */
    method FindOrCreateFromGoogle(profile: GoogleProfile, now: Millis) returns (r: Result<User, StoreError>)
      requires Valid()
      modifies this
      ensures Valid()
      ensures !Truthy(profile.email) ==> r == Err(GoogleProfileMissingEmail) && users == old(users)
      ensures Truthy(profile.email) && (forall id | id in old(users) :: old(users)[id].email != profile.email.value) ==>
        && r == CreateResult(old(users), old(nextId), GoogleData(profile), now)
        && users == (if r.Ok? then old(users)[r.value.id := r.value] else old(users))
      ensures forall id | id in old(users) && Truthy(profile.email) && old(users)[id].email == profile.email.value ::
        var v := ApplyGoogleProfile(old(users)[id], profile);
        && r == (if Clashes(old(users), v) then Err(DuplicateKey) else Ok(v))
        && users == (if r.Ok? then old(users)[id := v] else old(users))
    {
      if !Truthy(profile.email) {
        return Err(GoogleProfileMissingEmail);
      }
      var email := profile.email.value;
      if id :| id in users && users[id].email == email {
        var v := ApplyGoogleProfile(users[id], profile);
        if Clashes(users, v) {
          r := Err(DuplicateKey);
        } else {
          WriteKeepsUnique(users, v);
          users := users[id := v];
          r := Ok(v);
        }
      } else {
        r := Create(GoogleData(profile), now);
      }
    }

    /** createPendingGoogleLink (lines 162-167): stores the link and returns the token, whether or not the user exists. */
    method CreatePendingGoogleLink(userId: UserId, googleId: string, ttlMinutes: Option<int>, token: string, now: Millis)
      returns (r: string)
      requires Valid()
      modifies this
      ensures Valid()
      ensures r == token
      ensures users == if userId in old(users)
        then old(users)[userId := old(users)[userId].(pendingGoogleLink := Some(PendingLink(token, googleId, LinkExpiry(now, ttlMinutes))))]
        else old(users)
    {
      if userId in users {
        var v := users[userId].(pendingGoogleLink := Some(PendingLink(token, googleId, LinkExpiry(now, ttlMinutes))));
        SameKeysNoClash(users, v);
        WriteKeepsUnique(users, v);
        users := users[userId := v];
      }
      r := token;
    }

    /** confirmPendingGoogleLink (lines 170-184). A record found by token is chosen as `findOne` would: any one that holds it. */
    method ConfirmPendingGoogleLink(token: Option<string>, now: Millis) returns (r: Result<Option<User>, StoreError>)
      requires Valid()
      modifies this
      ensures Valid()
      ensures !Truthy(token) ==> r == Ok(None) && users == old(users)
      ensures Truthy(token) && (forall id :: !HoldsToken(old(users), id, token.value)) ==> r == Ok(None) && users == old(users)
      ensures Truthy(token) && (exists id :: HoldsToken(old(users), id, token.value)) ==>
        exists id :: HoldsToken(old(users), id, token.value) &&
          var o := ConfirmLink(old(users)[id], now);
          if !o.accepted then r == Ok(None) && users == old(users)[id := o.user]
          else if Clashes(old(users), o.user) then r == Err(DuplicateKey) && users == old(users)
          else r == Ok(Some(o.user)) && users == old(users)[id := o.user]
      ensures Truthy(token) && r.Ok? && SingleHolder(old(users), token.value) ==> forall id :: !HoldsToken(users, id, token.value)
    {
      if !Truthy(token) {
        return Ok(None);
      }
      var t := token.value;
      if id :| id in users && HoldsToken(users, id, t) {
        var o := ConfirmLink(users[id], now);
        if SingleHolder(users, t) {
          ClearingReleasesToken(users, id, o.user, t, users[id := o.user]);
        }
        if !o.accepted {
          SameKeysNoClash(users, o.user);
          WriteKeepsUnique(users, o.user);
          users := users[id := o.user];
          r := Ok(None);
        } else if Clashes(users, o.user) {
          r := Err(DuplicateKey);
        } else {
          WriteKeepsUnique(users, o.user);
          users := users[id := o.user];
          r := Ok(Some(o.user));
        }
      } else {
        r := Ok(None);
      }
    }

    /** incrementTokenVersion (lines 187-190): `$inc` by one, returning the updated record. */
    method IncrementTokenVersion(userId: Option<UserId>) returns (r: Option<User>)
      requires Valid()
      modifies this
      ensures Valid()
      ensures (userId.None? || userId.value !in old(users)) ==> r.None? && users == old(users)
      ensures userId.Some? && userId.value in old(users) ==>
        && users == old(users)[userId.value := old(users)[userId.value].(tokenVersion := old(users)[userId.value].tokenVersion + 1)]
        && r == Some(users[userId.value])
    {
      if userId.None? || userId.value !in users {
        return None;
      }
      var id := userId.value;
      var u := users[id];
      var v := u.(tokenVersion := u.tokenVersion + 1);
      SameKeysNoClash(users, v);
      WriteKeepsUnique(users, v);
      users := users[id := v];
      r := Some(v);
    }

    /** updateLastLogin (lines 87-90); `saved` is false when the document is no longer stored and `save` fails. */
    method UpdateLastLogin(id: UserId, now: Millis) returns (saved: bool)
      requires Valid()
      modifies this
      ensures Valid()
      ensures saved <==> id in old(users)
      ensures users == if saved then old(users)[id := old(users)[id].(lastLogin := now)] else old(users)
    {
      saved := id in users;
      if saved {
        var v := users[id].(lastLogin := now);
        SameKeysNoClash(users, v);
        WriteKeepsUnique(users, v);
        users := users[id := v];
      }
    }
  }
}
