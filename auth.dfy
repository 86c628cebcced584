/** The account lifecycle: registration, single-use email verification, the login decision of
    the local strategy, logout, and the `isAuthenticated` guard. A session is the id of the
    logged-in user, if any. Password hashing and comparison, the email-format check and the random
    token are parameters; `now` is the request time in milliseconds. */
module Auth {
  import opened Wrappers
  import opened Schema
  import opened Storage
  import opened Http

  type Session = Option<string>

  /** Lifetime of a verification token: 24 hours. */
  const VerificationTtl: int := 24 * 60 * 60 * 1000

  /** What a guarded request comes to: 401, a failed session lookup, 403, or continue with the
      session's user. */
  datatype Access = Unauthenticated | StaleSession | Unverified | Granted(user: User)

  /** `isAuthenticated`, after passport's session middleware. For the id stored in a session,
      `deserializeUser` passes on what `getUser` returns. When no row has that id, the result is
      `undefined`, which passport does not read as "no user": it fails the request with an error
      before any handler runs. */
  function Authorize(store: Store, session: Session): (a: Access)
    reads store
    ensures a.Unauthenticated? <==> session.None?
    ensures a.StaleSession? <==> session.Some? && store.GetUser(session.value).None?
    ensures a.Unverified? <==> session.Some? && store.GetUser(session.value).Some?
                               && !store.GetUser(session.value).value.emailVerified
    ensures a.Granted? ==> session == Some(a.user.id) && a.user in store.users && a.user.emailVerified
  {
    match session
    case None => Unauthenticated
    case Some(id) =>
      match store.GetUser(id)
      case None => StaleSession
      case Some(u) => if u.emailVerified then Granted(u) else Unverified
  }

  /** The reply of a request that does not reach its handler: 401 without a session, 403 when
      unverified, and 500 (Express's error handler) when the session's user cannot be loaded. */
  function Rejection<T>(a: Access): (r: Reply<T>)
    requires !a.Granted?
    ensures r.Fail?
    ensures r.status == 401 <==> a.Unauthenticated?
    ensures r.status == 403 <==> a.Unverified?
    ensures r.status == 500 <==> a.StaleSession?
  {
    match a
    case Unauthenticated => Fail(401, AuthRequired)
    case StaleSession => Fail(500, DeserializeFailed)
    case Unverified => Fail(403, EmailNotVerified)
  }

  datatype LoginDecision = Accept(user: User) | Reject(message: Message)

  /** The `LocalStrategy` callback: an unknown email and a wrong password get one generic message;
      an unverified account gets its own message, decided before the password is compared. */
  function DecideLogin(user: Option<User>, password: string, compare: (string, string) -> bool)
    : (d: LoginDecision)
    ensures d.Accept? <==> user.Some? && user.value.emailVerified && compare(password, user.value.password)
    ensures d.Accept? ==> d.user == user.value
    ensures d.Reject? ==> (d.message == EmailNotVerifiedLogin <==> user.Some? && !user.value.emailVerified)
    ensures d.Reject? ==> d.message in {EmailNotVerifiedLogin, InvalidCredentials}
  {
    match user
    case None => Reject(InvalidCredentials)
    case Some(u) =>
      if !u.emailVerified then Reject(EmailNotVerifiedLogin)
      else if !compare(password, u.password) then Reject(InvalidCredentials)
      else Accept(u)
  }

  /** A caller cannot tell an unknown email from a wrong password. */
  lemma UnknownEmailLooksLikeWrongPassword(u: User, password: string, other: string,
                                            compare: (string, string) -> bool)
    requires u.emailVerified && !compare(password, u.password)
    ensures DecideLogin(None, other, compare) == DecideLogin(Some(u), password, compare)
  {
  }

  /** For an unverified account the decision does not depend on the password or on the hash check. */
  lemma UnverifiedIgnoresPassword(u: User, p1: string, p2: string,
                                  c1: (string, string) -> bool, c2: (string, string) -> bool)
    requires !u.emailVerified
    ensures DecideLogin(Some(u), p1, c1) == DecideLogin(Some(u), p2, c2) == Reject(EmailNotVerifiedLogin)
  {
  }

  /** The user row a successful registration creates: unverified, the password hashed, the token
      set to expire 24 hours after the request. */
  function RegisteredUser(id: string, i: RegisterInput, hash: string -> string, token: string, now: int)
    : (u: User)
    ensures u.id == id && u.email == i.email && u.password == hash(i.password)
    ensures u.firstName == Some(i.firstName) && u.lastName == Some(i.lastName)
    ensures !u.emailVerified
    ensures u.verificationToken == Some(token) && u.verificationTokenExpires == Some(now + VerificationTtl)
  {
    InsertedUser(id, NewUser(i.email, hash(i.password), Some(i.firstName), Some(i.lastName), None,
                             Some(false), Some(token), Some(now + VerificationTtl)), now)
  }

  /** POST /api/auth/register. An invalid body is refused before the store is consulted; a taken
      email is refused and nothing changes; otherwise exactly one user is added and 201 names it.
      `mailDelivered` is the outcome of sending the verification email, which only gets logged:
      no reply and no stored value depends on it. */
  method Register(store: Store, body: Json, isEmail: string -> bool, hash: string -> string,
                  newId: string, token: string, now: int, mailDelivered: bool)
    returns (reply: Reply<string>)
    requires store.Valid()
    modifies store`users
    ensures store.Valid()
    ensures ParseRegister(body, isEmail).None? ==>
              reply == Fail(400, InvalidData) && store.users == old(store.users)
    ensures ParseRegister(body, isEmail).Some? ==>
              var i := ParseRegister(body, isEmail).value;
              if old(store.GetUserByEmail(i.email)).Some? then
                reply == Fail(400, EmailTaken) && store.users == old(store.users)
              else if old(store.GetUser(newId)).Some? then
                reply == Fail(500, InternalError) && store.users == old(store.users)
              else
                reply == Ok(201, newId)
                && store.users == old(store.users) + [RegisteredUser(newId, i, hash, token, now)]
  {
    var parsed := ParseRegister(body, isEmail);
    if parsed.None? {
      return Fail(400, InvalidData);
    }
    var i := parsed.value;
    if store.GetUserByEmail(i.email).Some? {
      return Fail(400, EmailTaken);
    }
    var created := store.CreateUser(newId, NewUser(i.email, hash(i.password), Some(i.firstName),
                                                   Some(i.lastName), None, Some(false), Some(token),
                                                   Some(now + VerificationTtl)), now);
    if created.Failure? {
      return Fail(500, InternalError);
    }
    reply := Ok(201, created.value.id);
  }

  /** The user fields the login reply carries. */
  datatype LoginSummary = LoginSummary(id: string, email: string, firstName: Option<string>,
                                       lastName: Option<string>, profileImageUrl: Option<string>)

  /** The public fields of a user: the password hash and the verification and reset tokens stay
      out of the reply. */
  function Summary(u: User): (s: LoginSummary)
    ensures s.id == u.id && s.email == u.email
    ensures s.firstName == u.firstName && s.lastName == u.lastName && s.profileImageUrl == u.profileImageUrl
  {
    LoginSummary(u.id, u.email, u.firstName, u.lastName, u.profileImageUrl)
  }

  /** POST /api/auth/login: 400 for a body `loginSchema` refuses, 401 with the strategy's message
      for a rejected login, otherwise the session is bound to the user. */
  method Login(store: Store, body: Json, isEmail: string -> bool, compare: (string, string) -> bool,
               session: Session)
    returns (reply: Reply<LoginSummary>, after: Session)
    ensures ParseLogin(body, isEmail).None? ==> reply == Fail(400, InvalidData) && after == session
    ensures ParseLogin(body, isEmail).Some? ==>
              var i := ParseLogin(body, isEmail).value;
              match DecideLogin(store.GetUserByEmail(i.email), i.password, compare)
              case Accept(u) => reply == Ok(200, Summary(u)) && after == Some(u.id)
              case Reject(m) => reply == Fail(401, m) && after == session
    ensures after.Some? ==> store.GetUser(after.value).Some? || after == session
  {
    var parsed := ParseLogin(body, isEmail);
    if parsed.None? {
      return Fail(400, InvalidData), session;
    }
    var i := parsed.value;
    var decision := DecideLogin(store.GetUserByEmail(i.email), i.password, compare);
    match decision
    case Reject(m) =>
      reply, after := Fail(401, m), session;
    case Accept(u) =>
      reply, after := Ok(200, Summary(u)), Some(u.id);
  }

  /** The token's expiry is set and lies before `now`; a null expiry never expires. */
  function Expired(u: User, now: int): (r: bool)
    ensures u.verificationTokenExpires.None? ==> !r
    ensures u.verificationTokenExpires.Some? ==> (r <==> now > u.verificationTokenExpires.value)
  {
    u.verificationTokenExpires.Some? && now > u.verificationTokenExpires.value
  }

  /** A freshly registered token is expired exactly when more than 24 hours have passed since
      the registration, and once expired it stays expired. */
  lemma RegisteredTokenLifetime(id: string, i: RegisterInput, hash: string -> string, token: string,
                                registered: int, now: int, later: int)
    ensures Expired(RegisteredUser(id, i, hash, token, registered), now) <==> now > registered + VerificationTtl
    ensures now <= later && Expired(RegisteredUser(id, i, hash, token, registered), now) ==>
              Expired(RegisteredUser(id, i, hash, token, registered), later)
  {
  }

  /** The update a successful verification applies. */
  function VerifiedPatch(): (p: UserPatch)
    ensures forall u: User, now: int {:trigger PatchedUser(u, p, now)} ::
              PatchedUser(u, p, now)
              == u.(emailVerified := true, verificationToken := None, verificationTokenExpires := None, updatedAt := now)
  {
    UserPatch(Keep, Keep, Keep, Keep, Keep, Set(true), Set(None), Set(None), Keep, Keep)
  }

  /** POST /api/auth/verify-email. Fails with 400 and changes nothing when the body is invalid,
      when no user holds the token, or when the token has expired. Otherwise that user becomes
      verified and loses the token and its expiry, so the same token cannot be redeemed again when
      no other user held it. */
  method VerifyEmail(store: Store, body: Json, now: int) returns (reply: Reply<()>)
    requires store.Valid()
    modifies store`users
    ensures store.Valid()
    ensures ParseVerifyEmail(body).None? ==> reply == Fail(400, InvalidData) && store.users == old(store.users)
    ensures ParseVerifyEmail(body).Some? ==>
              var t := ParseVerifyEmail(body).value;
              match old(store.GetUserByVerificationToken(t))
              case None => reply == Fail(400, InvalidOrExpiredToken) && store.users == old(store.users)
              case Some(u) =>
                if Expired(u, now) then reply == Fail(400, TokenExpired) && store.users == old(store.users)
                else
                  && old(store.UserIndex(u.id)).Some?
                  && var k := old(store.UserIndex(u.id)).value;
                  && reply == Ok(200, ())
                  && store.users == old(store.users)[k := PatchedUser(u, VerifiedPatch(), now)]
                  && store.users[k].emailVerified
                  && store.users[k].verificationToken.None? && store.users[k].verificationTokenExpires.None?
                  && (old(forall v :: v in store.users && v.verificationToken == Some(t) ==> v.id == u.id)
                      ==> store.GetUserByVerificationToken(t).None?)
  {
    var parsed := ParseVerifyEmail(body);
    if parsed.None? {
      return Fail(400, InvalidData);
    }
    var t := parsed.value;
    var holder := store.GetUserByVerificationToken(t);
    if holder.None? {
      return Fail(400, InvalidOrExpiredToken);
    }
    var u := holder.value;
    if Expired(u, now) {
      return Fail(400, TokenExpired);
    }
    ghost var before := store.users;
    ghost var k := store.UserIndex(u.id).value;
    assert before[k] == u;
    var updated := store.UpdateUser(u.id, VerifiedPatch(), now);
    if updated.Failure? {
      assert false;
      return Fail(500, InternalError);
    }
    reply := Ok(200, ());
    forall v | v in store.users && v.verificationToken == Some(t)
      ensures v in before && v.id != u.id
    {
      var j :| 0 <= j < |store.users| && store.users[j] == v;
      assert j != k;
    }
  }

  /** POST /api/auth/logout: always succeeds and leaves no user in the session. */
  method Logout(session: Session) returns (reply: Reply<()>, after: Session)
    ensures reply == Ok(200, ()) && after.None?
  {
    reply, after := Ok(200, ()), None;
  }
}
