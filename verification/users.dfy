/** The in-memory user registry and the user endpoints. The registry's list and
    id counter are static in the source; here they are one `UserStore` value
    threaded through the calls. */
module Users {
  import opened Wrappers
  import opened Text

  datatype User = User(id: int, username: string, password: string, role: Option<string>)

  datatype UserStore = UserStore(users: seq<User>, nextId: int)

  /** The registry as the process starts: no users, next id 1. */
  const InitialStore: UserStore := UserStore([], 1)

  /** Ids increase along the list and stay below the counter. */
  predicate ValidStore(s: UserStore) {
    && s.nextId >= 1
    && (forall i, j :: 0 <= i < j < |s.users| ==> s.users[i].id < s.users[j].id)
    && (forall i :: 0 <= i < |s.users| ==> 1 <= s.users[i].id < s.nextId)
  }

  predicate UniqueUsernames(users: seq<User>) {
    forall i, j :: 0 <= i < j < |users| ==> users[i].username != users[j].username
  }

  /** `GetByIdAsync`: the first user with the id. */
  function GetById(s: UserStore, id: int): (r: Option<User>)
    ensures r.Some? ==> r.value.id == id && exists i :: 0 <= i < |s.users| && s.users[i] == r.value
    ensures r.None? <==> forall i :: 0 <= i < |s.users| ==> s.users[i].id != id
  {
    FirstWithId(s.users, id)
  }

  function FirstWithId(users: seq<User>, id: int): (r: Option<User>)
    ensures r.Some? ==> r.value.id == id && exists i :: 0 <= i < |users| && users[i] == r.value
    ensures r.None? <==> forall i :: 0 <= i < |users| ==> users[i].id != id
  {
    if |users| == 0 then None
    else if users[0].id == id then Some(users[0])
    else
      var r := FirstWithId(users[1..], id);
      assert forall i :: 0 <= i < |users| - 1 ==> users[1..][i] == users[i + 1];
      r
  }

  /** `GetByUsernameAsync`: the first user whose name is exactly the one
      given. */
  function GetByUsername(s: UserStore, username: string): (r: Option<User>)
    ensures r.Some? ==> r.value.username == username && exists i :: 0 <= i < |s.users| && s.users[i] == r.value
    ensures r.None? <==> forall i :: 0 <= i < |s.users| ==> s.users[i].username != username
  {
    FirstNamed(s.users, username)
  }

  function FirstNamed(users: seq<User>, username: string): (r: Option<User>)
    ensures r.Some? ==> r.value.username == username && exists i :: 0 <= i < |users| && users[i] == r.value
    ensures r.None? <==> forall i :: 0 <= i < |users| ==> users[i].username != username
  {
    if |users| == 0 then None
    else if users[0].username == username then Some(users[0])
    else
      var r := FirstNamed(users[1..], username);
      assert forall i :: 0 <= i < |users| - 1 ==> users[1..][i] == users[i + 1];
      r
  }

  /** `CreateAsync`: the user takes the counter's id, the counter moves on and
      the user is appended. No check of the name is made here. */
  function Create(s: UserStore, user: User): (r: (UserStore, User))
    ensures r.1 == user.(id := s.nextId)
    ensures r.0.users == s.users + [r.1]
    ensures r.0.nextId == s.nextId + 1
  {
    var created := user.(id := s.nextId);
    (UserStore(s.users + [created], s.nextId + 1), created)
  }

  /** Creation keeps ids increasing, hence unique. */
  lemma CreateKeepsValid(s: UserStore, user: User)
    requires ValidStore(s)
    ensures ValidStore(Create(s, user).0)
    ensures forall i :: 0 <= i < |s.users| ==> s.users[i].id != Create(s, user).1.id
  {
  }

  /** The repository itself lets a name in twice. */
  lemma CreateAllowsDuplicateNames(user: User)
    ensures var first := Create(InitialStore, user).0;
      var second := Create(first, user).0;
      |second.users| == 2 && second.users[0].username == second.users[1].username
  {
  }

  // ---------------------------------------------------------------------------
  // UsersController

  datatype UserRegistration = UserRegistration(username: Option<string>, password: Option<string>, role: Option<string>)

  datatype RegisterOutcome = RegisterBadRequest(message: string) | RegisterOk(message: string)

  /** `Register` */
  function Register(s: UserStore, request: UserRegistration): (r: (RegisterOutcome, UserStore))
    ensures IsNullOrEmpty(request.username) ==> r == (RegisterBadRequest("Username is required"), s)
    ensures !IsNullOrEmpty(request.username) && IsNullOrEmpty(request.password) ==>
      r == (RegisterBadRequest("Password is required"), s)
    ensures !IsNullOrEmpty(request.username) && !IsNullOrEmpty(request.password) && GetByUsername(s, request.username.value).Some? ==>
      r == (RegisterBadRequest("Username already exists"), s)
    ensures r.0.RegisterOk? <==>
      !IsNullOrEmpty(request.username) && !IsNullOrEmpty(request.password) && GetByUsername(s, request.username.value).None?
    ensures r.0.RegisterOk? ==>
      && r.0.message == "User registered successfully"
      && r.1.users == s.users + [User(s.nextId, request.username.value, request.password.value, request.role)]
      && r.1.nextId == s.nextId + 1
  {
    if IsNullOrEmpty(request.username) then (RegisterBadRequest("Username is required"), s)
    else if IsNullOrEmpty(request.password) then (RegisterBadRequest("Password is required"), s)
    else if GetByUsername(s, request.username.value).Some? then (RegisterBadRequest("Username already exists"), s)
    else
      var user := User(0, request.username.value, request.password.value, request.role);
      (RegisterOk("User registered successfully"), Create(s, user).0)
  }

  /** One registration keeps the store valid and the names unique. */
  lemma RegisterKeepsInvariant(s: UserStore, request: UserRegistration)
    requires ValidStore(s) && UniqueUsernames(s.users)
    ensures ValidStore(Register(s, request).1)
    ensures UniqueUsernames(Register(s, request).1.users)
  {
  }

  /** Registers the requests one after the other. */
  function RegisterAll(s: UserStore, requests: seq<UserRegistration>): UserStore
    decreases |requests|
  {
    if |requests| == 0 then s
    else RegisterAll(Register(s, requests[0]).1, requests[1..])
  }

  /** Names stay unique, and ids increasing, whatever the sequence of
      registrations from a valid store. */
  lemma {:induction false} RegisterAllKeepsInvariant(s: UserStore, requests: seq<UserRegistration>)
    requires ValidStore(s) && UniqueUsernames(s.users)
    ensures ValidStore(RegisterAll(s, requests)) && UniqueUsernames(RegisterAll(s, requests).users)
    decreases |requests|
  {
    if |requests| > 0 {
      RegisterKeepsInvariant(s, requests[0]);
      RegisterAllKeepsInvariant(Register(s, requests[0]).1, requests[1..]);
    }
  }

  /** Registration never removes or alters an existing user. */
  lemma {:induction false} RegisterAllExtends(s: UserStore, requests: seq<UserRegistration>)
    ensures |s.users| <= |RegisterAll(s, requests).users|
    ensures RegisterAll(s, requests).users[..|s.users|] == s.users
    decreases |requests|
  {
    if |requests| > 0 {
      var next := Register(s, requests[0]).1;
      RegisterAllExtends(next, requests[1..]);
      assert next.users[..|s.users|] == s.users;
    }
  }

  datatype GetUserOutcome = UserFound(user: User) | UserNotFound(message: string)

  /** `GetUser` */
  function GetUser(s: UserStore, id: int): (r: GetUserOutcome)
    ensures r.UserNotFound? <==> forall i :: 0 <= i < |s.users| ==> s.users[i].id != id
    ensures r.UserNotFound? ==> r.message == "User not found"
    ensures r.UserFound? ==> r.user.id == id && exists i :: 0 <= i < |s.users| && s.users[i] == r.user
  {
    match GetById(s, id)
    case None => UserNotFound("User not found")
    case Some(u) => UserFound(u)
  }

  /** A freshly registered user is found under the id it was given. */
  lemma RegisteredUserIsFound(s: UserStore, request: UserRegistration)
    requires ValidStore(s)
    requires Register(s, request).0.RegisterOk?
    ensures GetUser(Register(s, request).1, s.nextId) ==
      UserFound(User(s.nextId, request.username.value, request.password.value, request.role))
  {
    var after := Register(s, request).1;
    var u := User(s.nextId, request.username.value, request.password.value, request.role);
    assert after.users == s.users + [u];
    assert after.users[|s.users|] == u;
    assert forall k :: 0 <= k < |s.users| ==> after.users[k].id != s.nextId;
    var r := GetUser(after, s.nextId);
    assert !r.UserNotFound?;
    var i :| 0 <= i < |after.users| && after.users[i] == r.user;
    assert i == |s.users|;
  }
}
