/** Registration and login (backend/src/services/auth.service.js) as ordered
    checks over a map of users. Hashing, password comparison and token issuance
    are abstract functions passed in by the caller. */
module AuthService {
  import opened Common
  import opened UserModel
  import Search

  /** The users collection: accounts by `_id`, and the counter that stamps the
      next `_id` and its timestamps. */
  datatype Users = Users(byId: map<UserId, User>, next: nat)

  /** What both operations return: the user document and a token for its `_id`. */
  datatype Session = Session(user: User, token: string)

  const FIELDS_REQUIRED := "Name, email, and password are required"
  const PASSWORD_TOO_SHORT := "Password must be at least 6 characters long"
  const EMAIL_TAKEN := "User with this email already exists"
  const CREDENTIALS_REQUIRED := "Email and password are required"
  const INVALID_CREDENTIALS := "Invalid email or password"
  const MIN_PASSWORD_LENGTH := 6

  /** The unique index on `email`. */
  ghost predicate EmailsUnique(byId: map<UserId, User>) {
    forall j, k :: j in byId && k in byId && byId[j].email == byId[k].email ==> j == k
  }

  /** Every stored user sits under its own `_id` below the counter, has its
      required paths filled, and carries its password hash. */
  ghost predicate Valid(users: Users) {
    && (forall k :: k in users.byId ==>
          && k < users.next
          && users.byId[k].id == k
          && users.byId[k].name != ""
          && users.byId[k].email != ""
          && users.byId[k].password.Some?
          && users.byId[k].password.value != "")
    && EmailsUnique(users.byId)
  }

  const NoUsers := Users(map[], 0)

  /** The empty users collection satisfies the invariant. */
  lemma NoUsersValid()
    ensures Valid(NoUsers)
  {
  }

  ghost predicate Registered(users: Users, email: string) {
    exists k :: k in users.byId && users.byId[k].email == email
  }

  /** `findUserByEmail`, with the password hash selected. */
  function FindUserByEmail(users: Users, email: string): (r: Option<User>)
    requires Valid(users)
    ensures r.None? <==> !Registered(users, email)
    ensures forall k :: k in users.byId && users.byId[k].email == email ==> r == Some(users.byId[k])
  {
    match Search.FirstBelow(users.byId, (u: User) => u.email == email, users.next)
    case None => None
    case Some(k) => Some(users.byId[k])
  }

  /** `registerUser`: the three field checks, then the password length, then the
      email lookup; a new account stores `hash(password)` and gets a token for its
      `_id`. */
  function RegisterUser(users: Users, name: Option<string>, email: Option<string>, password: Option<string>,
                        hash: string -> string, token: UserId -> string): (r: Reply<Users, Session>)
    requires Valid(users)
    ensures Valid(r.state)
    ensures r.result.Err? ==> r.state == users
    ensures !(Truthy(name) && Truthy(email) && Truthy(password)) ==>
              r.result == Err(ValidationError(FIELDS_REQUIRED))
    ensures Truthy(name) && Truthy(email) && Truthy(password) && Utf16Length(password.value) < MIN_PASSWORD_LENGTH ==>
              r.result == Err(ValidationError(PASSWORD_TOO_SHORT))
    ensures Truthy(name) && Truthy(email) && Truthy(password) && Utf16Length(password.value) >= MIN_PASSWORD_LENGTH
            && Registered(users, email.value) ==>
              r.result == Err(ConflictError(EMAIL_TAKEN))
    ensures r.result.Ok? <==>
              && Truthy(name) && Truthy(email) && Truthy(password)
              && Utf16Length(password.value) >= MIN_PASSWORD_LENGTH
              && !Registered(users, email.value)
              && hash(password.value) != ""
    ensures r.result.Ok? ==>
              var u := r.result.value.user;
              && u.id !in users.byId
              && r.state.byId == users.byId[u.id := u]
              && u.name == name.value && u.email == email.value
              && u.password == Some(hash(password.value))
              && u.avatar == DEFAULT_AVATAR
              && r.result.value.token == token(u.id)
  {
    if !Truthy(name) || !Truthy(email) || !Truthy(password) then
      Reply(users, Err(ValidationError(FIELDS_REQUIRED)))
    else if Utf16Length(password.value) < MIN_PASSWORD_LENGTH then
      Reply(users, Err(ValidationError(PASSWORD_TOO_SHORT)))
    else if FindUserByEmail(users, email.value).Some? then
      Reply(users, Err(ConflictError(EMAIL_TAKEN)))
    else
      match NewUser(users.next, name.value, email.value, hash(password.value), None, users.next)
      case Err(e) => Reply(users, Err(e))
      case Ok(u) => Reply(Users(users.byId[u.id := u], users.next + 1), Ok(Session(u, token(u.id))))
  }

  /** `loginUser`: both fields present, then the account lookup and the password
      comparison, which fail with one and the same error; the returned user has
      its password cleared. Login returns no new state: it never changes the users. */
  function LoginUser(users: Users, email: Option<string>, password: Option<string>,
                     compare: (string, string) -> bool, token: UserId -> string): (r: Result<Session>)
    requires Valid(users)
    ensures !(Truthy(email) && Truthy(password)) ==> r == Err(ValidationError(CREDENTIALS_REQUIRED))
    ensures Truthy(email) && Truthy(password) && !Registered(users, email.value) ==>
              r == Err(UnauthorizedError(INVALID_CREDENTIALS))
    ensures forall k :: Truthy(email) && Truthy(password) && k in users.byId && users.byId[k].email == email.value ==>
              if compare(password.value, users.byId[k].password.value)
              then r == Ok(Session(users.byId[k].(password := None), token(k)))
              else r == Err(UnauthorizedError(INVALID_CREDENTIALS))
  {
    if !Truthy(email) || !Truthy(password) then
      Err(ValidationError(CREDENTIALS_REQUIRED))
    else
      match FindUserByEmail(users, email.value)
      case None => Err(UnauthorizedError(INVALID_CREDENTIALS))
      case Some(u) =>
        if !compare(password.value, u.password.value) then Err(UnauthorizedError(INVALID_CREDENTIALS))
        else Ok(Session(u.(password := None), token(u.id)))
  }

  /** Password length is JavaScript's: three characters outside the Basic
      Multilingual Plane are six UTF-16 units, enough to pass the length check. */
  lemma AstralPasswordMeetsMinimum()
    ensures Utf16Length("\U{1F600}\U{1F600}\U{1F600}") == MIN_PASSWORD_LENGTH
  {
  }

  /** An unknown email and a wrong password are indistinguishable to the caller. */
  lemma LoginFailuresAgree(users: Users, unknown: string, known: string, password: string,
                           compare: (string, string) -> bool, token: UserId -> string)
    requires Valid(users)
    requires unknown != "" && known != "" && password != ""
    requires !Registered(users, unknown)
    requires forall k :: k in users.byId && users.byId[k].email == known ==> !compare(password, users.byId[k].password.value)
    ensures LoginUser(users, Some(unknown), Some(password), compare, token)
         == LoginUser(users, Some(known), Some(password), compare, token)
  {
  }

  /** Round trip: when the comparison accepts a password against its own hash, an
      account just registered can log in with the same email and password, and the
      session's user is the stored one without its password. */
  lemma RegisterThenLogin(users: Users, name: string, email: string, password: string,
                          hash: string -> string, compare: (string, string) -> bool, token: UserId -> string)
    requires Valid(users)
    requires compare(password, hash(password))
    requires RegisterUser(users, Some(name), Some(email), Some(password), hash, token).result.Ok?
    ensures var reg := RegisterUser(users, Some(name), Some(email), Some(password), hash, token);
            var u := reg.result.value.user;
            LoginUser(reg.state, Some(email), Some(password), compare, token)
              == Ok(Session(u.(password := None), token(u.id)))
  {
  }

  /** Neither a registration nor a login response carries the password hash once
      serialised. */
  lemma SessionsNeverSerialisePassword(users: Users, name: Option<string>, email: Option<string>, password: Option<string>,
                                       hash: string -> string, compare: (string, string) -> bool, token: UserId -> string)
    requires Valid(users)
    ensures var reg := RegisterUser(users, name, email, password, hash, token);
            reg.result.Ok? ==> reg.result.value.user.password.Some? && "password" !in ToJson(reg.result.value.user)
    ensures var login := LoginUser(users, email, password, compare, token);
            login.Ok? ==> login.value.user.password.None? && "password" !in ToObject(login.value.user)
  {
  }
}
