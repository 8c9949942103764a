/** Sessions and the authentication gate (app/auth.handlers.go): the
    process-wide map from token to session, sign-in, logout, the middleware
    that resolves a session cookie, and the generation of tokens. Time is a
    whole number of seconds, and "now" and the random bytes are inputs. */
module Auth {
  import opened Base
  import Hex
  import opened Models
  import opened Store

  /** Lifetime of a session: ten hours, in seconds. */
  const SessionTtl := 60 * 60 * 10

  /** Random bytes in a session token. */
  const TokenBytes := 16

  datatype Session = Session(username: string, userId: ObjectId, expiry: int)

  /** The body of a sign-in request. */
  datatype Credentials = Credentials(username: string, password: string)

  /** The identity the gate hands to the handler behind it (`UserContextData`). */
  datatype UserContext = UserContext(id: ObjectId, name: string)

  /** What reading the `session` cookie of a request gives: no such cookie
      (`http.ErrNoCookie`), another error, or the cookie's value. */
  datatype Cookie = NoCookie | Unreadable | Present(value: string)

  /** The cookie a successful sign-in or sign-up sets. */
  datatype IssuedCookie = IssuedCookie(token: string, expires: int)

  /** The gate either passes the identity on or answers 401 "Unauthorized". */
  datatype GateResult = Admitted(user: UserContext) | Unauthorized

  const InvalidCredentialsMessage := "Invalid username or password"

  /** A session is expired once its expiry lies strictly before now. */
  predicate IsExpired(s: Session, now: int) {
    s.expiry < now
  }

  /** `length` random bytes in lower-case hexadecimal; `random` is what the
      entropy source delivered, None when reading it failed. */
  function GenerateRandomString(length: nat, random: Option<seq<byte>>): (r: Option<string>)
    requires random.Some? ==> |random.value| == length
    ensures r.Some? <==> random.Some?
    ensures r.Some? ==> |r.value| == 2 * length && Hex.IsLowerHex(r.value)
    ensures r.Some? ==> Hex.Decode(r.value) == Some(random.value)
  {
    match random
    case None => None
    case Some(bytes) =>
      Hex.DecodeEncode(bytes);
      Some(Hex.Encode(bytes))
  }

  function GenerateSessionToken(random: Option<seq<byte>>): (r: Option<string>)
    requires random.Some? ==> |random.value| == TokenBytes
    ensures r.Some? ==> |r.value| == 32 && Hex.IsLowerHex(r.value)
  {
    GenerateRandomString(TokenBytes, random)
  }

  /** The token the handlers store: they discard the generator's error, which
      leaves the empty string. */
  function IssuedToken(random: Option<seq<byte>>): (t: string)
    requires random.Some? ==> |random.value| == TokenBytes
    ensures random.Some? ==> |t| == 32 && Hex.IsLowerHex(t) && Hex.Decode(t) == Some(random.value)
    ensures random.None? ==> t == ""
  {
    match GenerateSessionToken(random)
    case Some(t) => t
    case None => ""
  }

  /** Two sessions started from different random bytes get different tokens. */
  lemma IssuedTokensDistinct(a: seq<byte>, b: seq<byte>)
    requires |a| == TokenBytes && |b| == TokenBytes && a != b
    ensures IssuedToken(Some(a)) != IssuedToken(Some(b))
  {
    if IssuedToken(Some(a)) == IssuedToken(Some(b)) {
      Hex.EncodeInjective(a, b);
    }
  }

  /** Every user with the requested name has the requested password. */
  predicate EveryNamesakeMatches(users: map<ObjectId, User>, c: Credentials) {
    forall u :: u in users.Values && u.name == c.username ==> u.password == c.password
  }

  /** No user has both the requested name and the requested password (which
      covers an unknown name). */
  predicate NoNamesakeMatches(users: map<ObjectId, User>, c: Credentials) {
    forall u :: u in users.Values && u.name == c.username ==> u.password != c.password
  }

  /** What resolving a token does: the gate's answer and the map it leaves. */
  datatype Resolution = Resolution(result: GateResult, sessions: map<string, Session>)

  /** Resolving a token in the session map: admitted, with the identity the
      entry holds, exactly when the entry exists and has not expired; an entry
      found expired is deleted. */
  function Resolve(sessions: map<string, Session>, token: string, now: int): (r: Resolution)
    ensures r.result.Admitted? <==> token in sessions && !IsExpired(sessions[token], now)
    ensures r.result.Admitted? ==>
      r.result.user == UserContext(sessions[token].userId, sessions[token].username)
    ensures r.sessions == if token in sessions && IsExpired(sessions[token], now)
                          then sessions - {token} else sessions
  {
    if token !in sessions || IsExpired(sessions[token], now) then
      Resolution(Unauthorized, if token in sessions then sessions - {token} else sessions)
    else
      Resolution(Admitted(UserContext(sessions[token].userId, sessions[token].username)), sessions)
  }

  /** A session stays valid up to and including its expiry second. */
  lemma ValidUntilExpiry(sessions: map<string, Session>, token: string, s: Session, now: int)
    requires token in sessions && sessions[token] == s
    ensures Resolve(sessions, token, now).result.Admitted? <==> now <= s.expiry
  {
  }

  /** Once a token has been found expired, it is gone: every later resolve of
      it rejects and changes nothing. */
  lemma ExpiredRejectedTwice(sessions: map<string, Session>, token: string, now: int, later: int)
    requires token in sessions && IsExpired(sessions[token], now)
    ensures var first := Resolve(sessions, token, now);
            first.result.Unauthorized? && token !in first.sessions &&
            Resolve(first.sessions, token, later) == Resolution(Unauthorized, first.sessions)
  {
  }

  /** Resolving never adds an entry and touches no token but its own. */
  lemma ResolveTouchesOnlyItsToken(sessions: map<string, Session>, token: string, now: int, other: string)
    requires other != token
    ensures var after := Resolve(sessions, token, now).sessions;
            after.Keys <= sessions.Keys &&
            (other in after <==> other in sessions) &&
            (other in after ==> after[other] == sessions[other])
  {
  }

  class SessionStore {
    /** The process-wide map from token to session. */
    var sessions: map<string, Session>

    constructor ()
      ensures sessions == map[]
    {
      sessions := map[];
    }

    /** Records a fresh session for the user and returns the cookie to set:
        the token, and an expiry ten hours from now. An entry under the same
        token is replaced. */
    method StartSession(username: string, userId: ObjectId, now: int, random: Option<seq<byte>>)
      returns (cookie: IssuedCookie)
      requires random.Some? ==> |random.value| == TokenBytes
      modifies this
      ensures cookie == IssuedCookie(IssuedToken(random), now + SessionTtl)
      ensures sessions == old(sessions)[cookie.token := Session(username, userId, cookie.expires)]
    {
      var token := IssuedToken(random);
      var expiresAt := now + SessionTtl;
      sessions := sessions[token := Session(username, userId, expiresAt)];
      cookie := IssuedCookie(token, expiresAt);
    }

    /** `SignInHandler`: `request` is None when the body is not valid JSON;
        `lookupFails` makes the user lookup return an error. An unknown name
        and a wrong password give the same 401 answer and add no session. */
    method SignIn(db: Database, request: Option<Credentials>, now: int, random: Option<seq<byte>>, lookupFails: bool)
      returns (r: Response<IssuedCookie>)
      requires random.Some? ==> |random.value| == TokenBytes
      modifies this
      ensures r.Error? ==> r == Error(StatusUnauthorized, InvalidCredentialsMessage) && sessions == old(sessions)
      ensures r.Ok? ==>
        && request.Some? && !lookupFails
        && r == Ok(StatusOK, IssuedCookie(IssuedToken(random), now + SessionTtl))
        && exists u :: u in db.users.Values && u.name == request.value.username
                       && u.password == request.value.password
                       && sessions == old(sessions)[r.body.token := Session(u.name, u.id, r.body.expires)]
      ensures (request.Some? && !lookupFails && NameTaken(db.users, request.value.username) &&
               EveryNamesakeMatches(db.users, request.value)) ==> r.Ok?
      ensures request.Some? && NoNamesakeMatches(db.users, request.value) ==> r.Error?
    {
      if request.None? {
        return Error(StatusUnauthorized, InvalidCredentialsMessage);
      }
      var credentials := request.value;
      var lookup := db.FindUserByName(credentials.username, lookupFails);
      if !lookup.Found? {
        return Error(StatusUnauthorized, InvalidCredentialsMessage);
      }
      var user := lookup.doc;
      if user.password != credentials.password {
        return Error(StatusUnauthorized, InvalidCredentialsMessage);
      }
      var cookie := StartSession(credentials.username, user.id, now, random);
      r := Ok(StatusOK, cookie);
    }

    /** `LogoutHandler`: deletes the cookie's entry, whether or not it exists
        or has expired; without a cookie the answer is 401, and 400 when the
        cookie cannot be read. */
    method Logout(cookie: Cookie) returns (r: Response<()>)
      modifies this
      ensures cookie.NoCookie? ==> r == Error(StatusUnauthorized, "") && sessions == old(sessions)
      ensures cookie.Unreadable? ==> r == Error(StatusBadRequest, "") && sessions == old(sessions)
      ensures cookie.Present? ==> r == Ok(StatusOK, ()) && sessions == old(sessions) - {cookie.value}
    {
      match cookie
      case NoCookie => r := Error(StatusUnauthorized, "");
      case Unreadable => r := Error(StatusBadRequest, "");
      case Present(token) =>
        sessions := sessions - {token};
        r := Ok(StatusOK, ());
    }

    /** `authMiddleware`: a request without a readable cookie is refused; a
        token is resolved as `Resolve` says, deleting an expired entry. */
    method Authenticate(cookie: Cookie, now: int) returns (r: GateResult)
      modifies this
      ensures !cookie.Present? ==> r == Unauthorized && sessions == old(sessions)
      ensures cookie.Present? ==>
        var res := Resolve(old(sessions), cookie.value, now);
        r == res.result && sessions == res.sessions
    {
      if !cookie.Present? {
        return Unauthorized;
      }
      var token := cookie.value;
      if token !in sessions || IsExpired(sessions[token], now) {
        if token in sessions {
          sessions := sessions - {token};
        }
        return Unauthorized;
      }
      var s := sessions[token];
      r := Admitted(UserContext(s.userId, s.username));
    }
  }

  /** A session started now is admitted by the gate until its expiry and
      rejected after it; logging out makes every later resolve reject. */
  method SessionLifecycle(store: SessionStore, user: UserContext, now: int, later: int, random: seq<byte>)
    returns (admitted: GateResult, afterLogout: GateResult)
    requires |random| == TokenBytes
    requires now <= later <= now + SessionTtl
    modifies store
    ensures admitted == Admitted(user)
    ensures afterLogout == Unauthorized
  {
    var cookie := store.StartSession(user.name, user.id, now, Some(random));
    admitted := store.Authenticate(Present(cookie.token), later);
    var _ := store.Logout(Present(cookie.token));
    afterLogout := store.Authenticate(Present(cookie.token), later);
  }
}
