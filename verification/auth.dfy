/** Authentication: the credential check and the login endpoint. */
module Auth {
  import opened Wrappers
  import opened Text
  import opened Time
  import opened Users

  /** The token handed out on success: the name and the clock's ticks. */
  function TokenFor(username: string, ticks: nat): (token: string)
    ensures |token| == 7 + |username| + |NatToString(ticks)|
    ensures token[..6] == "token_"
    ensures token[6..6 + |username|] == username
    ensures token[6 + |username|] == '_'
    ensures token[7 + |username|..] == NatToString(ticks)
  {
    "token_" + username + "_" + NatToString(ticks)
  }

  /** Different names, or different instants, give different tokens: the
      digits of the ticks contain no '_', so the last '_' of a token ends the
      name. */
  lemma TokensDiffer(u1: string, t1: nat, u2: string, t2: nat)
    requires TokenFor(u1, t1) == TokenFor(u2, t2)
    ensures u1 == u2 && NatToString(t1) == NatToString(t2)
  {
    var token := TokenFor(u1, t1);
    assert u1 == token[6..6 + |u1|];
    assert NatToString(t1) == token[7 + |u1|..];
  }

  /** `AuthenticateAsync`: `ticks` is `DateTime.UtcNow.Ticks`. */
  function Authenticate(s: UserStore, username: string, password: string, ticks: nat): (token: Option<string>)
    ensures token.Some? <==>
      exists i :: 0 <= i < |s.users| && s.users[i].username == username && s.users[i].password == password
                  && forall k :: 0 <= k < i ==> s.users[k].username != username
    ensures token.Some? ==> token.value == TokenFor(username, ticks)
  {
    match FirstNamed(s.users, username)
    case None => None
    case Some(user) =>
      FirstNamedIndex(s.users, username);
      if user.password != password then None
      else Some(TokenFor(user.username, ticks))
  }

  /** The user `FirstNamed` answers with is the first one with the name. */
  lemma {:induction false} FirstNamedIndex(users: seq<User>, username: string)
    ensures FirstNamed(users, username).Some? ==>
      exists i :: 0 <= i < |users| && users[i] == FirstNamed(users, username).value
                  && forall k :: 0 <= k < i ==> users[k].username != username
    ensures forall i :: 0 <= i < |users| && users[i].username == username && (forall k :: 0 <= k < i ==> users[k].username != username) ==>
      FirstNamed(users, username) == Some(users[i])
    decreases |users|
  {
    if |users| > 0 && users[0].username != username {
      FirstNamedIndex(users[1..], username);
      var r := FirstNamed(users[1..], username);
      if r.Some? {
        var i :| 0 <= i < |users| - 1 && users[1..][i] == r.value && forall k :: 0 <= k < i ==> users[1..][k].username != username;
        assert users[i + 1] == r.value;
      }
      forall i | 0 <= i < |users| && users[i].username == username && (forall k :: 0 <= k < i ==> users[k].username != username)
        ensures FirstNamed(users, username) == Some(users[i])
      {
        assert i > 0;
        assert users[1..][i - 1] == users[i];
        assert forall k :: 0 <= k < i - 1 ==> users[1..][k].username != username;
      }
    }
  }

  /** Whoever has just registered can log in with the same credentials. */
  lemma RegisterThenAuthenticate(s: UserStore, request: UserRegistration, ticks: nat)
    requires Register(s, request).0.RegisterOk?
    ensures Authenticate(Register(s, request).1, request.username.value, request.password.value, ticks)
      == Some(TokenFor(request.username.value, ticks))
  {
    var after := Register(s, request).1;
    var i := |s.users|;
    assert after.users[i].username == request.username.value;
    FirstNamedIndex(after.users, request.username.value);
  }

  // ---------------------------------------------------------------------------
  // TokenController

  datatype UserLogin = UserLogin(username: Option<string>, password: Option<string>)

  datatype LoginOutcome =
    | LoginBadRequest(message: string)
    | LoginUnauthorized(message: string)
    | LoginOk(token: string, expiration: int)

  /** `Login`. `authenticate` is the injected auth service: a token, no token,
      or the message of the exception it threw. */
  function Login(request: Option<UserLogin>, authenticate: (string, string) -> Result<Option<string>, string>, now: int): (r: LoginOutcome)
    ensures request.None? || IsNullOrEmpty(request.value.username) || IsNullOrEmpty(request.value.password) ==>
      r == LoginBadRequest("Login não pode ser nulo")
    ensures r.LoginOk? ==>
      && request.Some? && request.value.username.Some? && request.value.password.Some?
      && authenticate(request.value.username.value, request.value.password.value) == Success(Some(r.token))
      && r.expiration == AddHours(now, 24)
    ensures r.LoginUnauthorized? <==>
      && !(request.None? || IsNullOrEmpty(request.value.username) || IsNullOrEmpty(request.value.password))
      && authenticate(request.value.username.value, request.value.password.value) == Success(None)
    ensures r.LoginUnauthorized? ==> r.message == "Credenciais invalidas"
    ensures !(request.None? || IsNullOrEmpty(request.value.username) || IsNullOrEmpty(request.value.password)) ==>
      var answer := authenticate(request.value.username.value, request.value.password.value);
      && (answer.Success? && answer.value.Some? ==> r == LoginOk(answer.value.value, AddHours(now, 24)))
      && (answer.Failure? ==> r == LoginBadRequest("Error during authentication: " + answer.error))
  {
    if request.None? || IsNullOrEmpty(request.value.username) || IsNullOrEmpty(request.value.password) then
      LoginBadRequest("Login não pode ser nulo")
    else
      match authenticate(request.value.username.value, request.value.password.value)
      case Failure(e) => LoginBadRequest("Error during authentication: " + e)
      case Success(None) => LoginUnauthorized("Credenciais invalidas")
      case Success(Some(token)) => LoginOk(token, AddHours(now, 24))
  }

  /** A refused request never reaches the auth service: the answer is the same
      whatever service is plugged in. */
  lemma LoginGuardSkipsService(request: Option<UserLogin>, a1: (string, string) -> Result<Option<string>, string>,
                               a2: (string, string) -> Result<Option<string>, string>, now: int)
    requires request.None? || IsNullOrEmpty(request.value.username) || IsNullOrEmpty(request.value.password)
    ensures Login(request, a1, now) == Login(request, a2, now)
  {
  }

  /** Whatever token the service hands out for valid-looking credentials is
      returned, with an expiration after the current instant. */
  lemma LoginReturnsServiceToken(now: int)
    ensures var r := Login(Some(UserLogin(Some("testuser"), Some("password"))),
                           (u, p) => Success(Some("valid-jwt-token")), now);
      r == LoginOk("valid-jwt-token", AddHours(now, 24)) && r.expiration > now
  {
  }

  /** A failing auth service is reported with its message. */
  lemma LoginReportsFault(username: string, password: string, message: string, now: int)
    requires |username| > 0 && |password| > 0
    ensures Login(Some(UserLogin(Some(username), Some(password))), (u, p) => Failure(message), now)
      == LoginBadRequest("Error during authentication: " + message)
  {
  }

  /** Against the registry, a login succeeds exactly for stored credentials
      and hands out the user's token, valid for 24 hours. */
  lemma LoginWithRegistry(s: UserStore, username: string, password: string, ticks: nat, now: int)
    requires |username| > 0 && |password| > 0
    ensures var r := Login(Some(UserLogin(Some(username), Some(password))),
                           (u, p) => Success(Authenticate(s, u, p, ticks)), now);
      && (r.LoginOk? <==> Authenticate(s, username, password, ticks).Some?)
      && (r.LoginOk? ==> r.token == TokenFor(username, ticks) && r.expiration == now + 24 * TicksPerHour)
      && (!r.LoginOk? ==> r == LoginUnauthorized("Credenciais invalidas"))
  {
  }
}
