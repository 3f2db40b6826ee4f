/** Signing in (app/api/auth/login/route.js) and registering without a
    code (app/api/auth/register-direct/route.js). bcrypt is a parameter:
    `hash` for `bcrypt.hash` and `passwordOk` for `bcrypt.compare`. */
module Accounts {
  import opened Wrappers
  import opened Records

  const RoleUser := "USER"
  const RoleAdmin := "ADMIN"
  const RoleAgent := "AGENT"

  /** A row of the user table; `password` is the stored hash. */
  datatype User = User(id: nat, name: string, email: string, password: string, role: string,
                       phone: Option<string>, cnic: Option<string>)

  /** The first row whose email is `email` (`findUnique`/`findFirst` on
      the email column); `emailOf` reads a row's email. */
  function FindByEmail<T>(rows: seq<T>, emailOf: T -> string, email: string): (r: Option<T>)
    ensures r.Some? ==> r.value in rows && emailOf(r.value) == email
    ensures r.None? <==> forall k :: 0 <= k < |rows| ==> emailOf(rows[k]) != email
    decreases |rows|
  {
    if rows == [] then None
    else if emailOf(rows[0]) == email then Some(rows[0])
    else FindByEmail(rows[1..], emailOf, email)
  }

  /** The user with that email. */
  function FindUser(users: seq<User>, email: string): (r: Option<User>)
    ensures r.Some? ==> r.value in users && r.value.email == email
    ensures r.None? <==> forall k :: 0 <= k < |users| ==> users[k].email != email
  {
    FindByEmail(users, (u: User) => u.email, email)
  }

  /** The agent with that email. */
  function FindAgentByEmail(agents: seq<Agent>, email: string): (r: Option<Agent>)
    ensures r.Some? ==> r.value in agents && r.value.email == email
    ensures r.None? <==> forall k :: 0 <= k < |agents| ==> agents[k].email != email
  {
    FindByEmail(agents, (a: Agent) => a.email, email)
  }

  // ---------------------------------------------------------------------
  // Login
  // ---------------------------------------------------------------------

  /** The request body; an absent field is "". */
  datatype LoginRequest = LoginRequest(email: string, password: string, role: string)

  datatype LoginReply =
    | LoggedIn(name: string, role: string, userId: nat)
    | Refused(status: int, error: string)

  const FieldsRequired := "Email, password, and role are required"
  const UserNotFound := "User not found"
  const AgentNotFound := "Agent not found"
  const InvalidRole := "Invalid role"
  const IncorrectPassword := "Incorrect password"

  function WrongRole(role: string): string {
    "This account is not allowed to login as " + role
  }

  /** The record a login checks the password against: the user table for
      USER and ADMIN (whose stored role must be the requested one), the
      agent table for AGENT. */
  function Account(users: seq<User>, agents: seq<Agent>, req: LoginRequest): (r: Result<(string, string, nat), LoginReply>)
    ensures r.Err? ==> r.error.Refused?
  {
    if req.role == RoleUser || req.role == RoleAdmin then
      match FindUser(users, req.email)
      case None => Err(Refused(404, UserNotFound))
      case Some(u) =>
        if u.role != req.role then Err(Refused(403, WrongRole(req.role)))
        else Ok((u.name, u.password, u.id))
    else if req.role == RoleAgent then
      match FindAgentByEmail(agents, req.email)
      case None => Err(Refused(404, AgentNotFound))
      case Some(a) => Ok((a.name, a.password, a.id))
    else Err(Refused(400, InvalidRole))
  }

  predicate Filled(req: LoginRequest) {
    req.email != "" && req.password != "" && req.role != ""
  }

  /** POST /api/auth/login */
  function Login(users: seq<User>, agents: seq<Agent>, req: LoginRequest, passwordOk: (string, string) -> bool): (r: LoginReply)
    ensures r == Refused(400, FieldsRequired) <==> req.email == "" || req.password == "" || req.role == ""
    ensures r.LoggedIn? ==> r.role == req.role
    ensures r.LoggedIn? && req.role != RoleAgent ==>
              (req.role == RoleUser || req.role == RoleAdmin)
              && FindUser(users, req.email).Some?
              && FindUser(users, req.email).value.role == req.role
              && r.userId == FindUser(users, req.email).value.id
              && passwordOk(req.password, FindUser(users, req.email).value.password)
    ensures r.LoggedIn? && req.role == RoleAgent ==>
              FindAgentByEmail(agents, req.email).Some?
              && r.userId == FindAgentByEmail(agents, req.email).value.id
              && passwordOk(req.password, FindAgentByEmail(agents, req.email).value.password)
    ensures r == Refused(400, InvalidRole) <==>
              req.email != "" && req.password != "" && req.role != ""
              && req.role != RoleUser && req.role != RoleAdmin && req.role != RoleAgent
    ensures Filled(req) && (req.role == RoleUser || req.role == RoleAdmin) ==>
              match FindUser(users, req.email)
              case None => r == Refused(404, UserNotFound)
              case Some(u) =>
                if u.role != req.role then r == Refused(403, WrongRole(req.role))
                else if passwordOk(req.password, u.password) then r == LoggedIn(u.name, req.role, u.id)
                else r == Refused(401, IncorrectPassword)
    ensures Filled(req) && req.role == RoleAgent ==>
              match FindAgentByEmail(agents, req.email)
              case None => r == Refused(404, AgentNotFound)
              case Some(a) =>
                if passwordOk(req.password, a.password) then r == LoggedIn(a.name, req.role, a.id)
                else r == Refused(401, IncorrectPassword)
  {
    if req.email == "" || req.password == "" || req.role == "" then Refused(400, FieldsRequired)
    else
      match Account(users, agents, req)
      case Err(reply) => reply
      case Ok((name, stored, id)) =>
        if !passwordOk(req.password, stored) then Refused(401, IncorrectPassword)
        else LoggedIn(name, req.role, id)
  }

  /** An unknown role is refused before any password is compared, and no
      request logs in with a password bcrypt rejects. */
  lemma RoleCheckedBeforePassword(users: seq<User>, agents: seq<Agent>, req: LoginRequest, ok1: (string, string) -> bool, ok2: (string, string) -> bool)
    requires req.role != RoleUser && req.role != RoleAdmin && req.role != RoleAgent
    ensures Login(users, agents, req, ok1) == Login(users, agents, req, ok2)
    ensures Login(users, agents, req, ok1).Refused?
  {
  }

  // ---------------------------------------------------------------------
  // register-direct
  // ---------------------------------------------------------------------

  /** The request body; an absent field is `None`. */
  datatype RegisterRequest = RegisterRequest(name: Option<string>, email: Option<string>, phone: Option<string>, password: Option<string>)

  datatype Outcome = Done(message: string) | Failed(status: int, error: string)

  const AlreadyRegistered := "This email is already registered. Please login."
  const AccountCreated := "Account created successfully! You can now login."
  /** What bcrypt throws when given no password. */
  const IllegalArguments := "Illegal arguments: undefined, number"

  /** `findFirst({ where: { email } })`: an absent email is no condition
      at all, so then any user matches. */
  predicate EmailTaken(users: seq<User>, email: Option<string>) {
    match email
    case None => users != []
    case Some(e) => FindUser(users, e).Some?
  }

  /** POST /api/auth/register-direct. `newId` is the id the database
      assigns and `dbError` the message of a failed insert (an absent name
      or email). */
  function RegisterDirect(users: seq<User>, req: RegisterRequest, hash: string -> string, newId: nat, dbError: string): (r: (Outcome, seq<User>))
    ensures r.0.Failed? ==> r.1 == users && r.0.status == 200
    ensures EmailTaken(users, req.email) ==> r.0 == Failed(200, AlreadyRegistered)
    ensures !EmailTaken(users, req.email) && req.password.None? ==> r.0 == Failed(200, IllegalArguments)
    ensures r.0.Done? <==> !EmailTaken(users, req.email) && req.password.Some? && req.name.Some? && req.email.Some?
    ensures r.0.Done? ==>
              r.1 == users + [User(newId, req.name.value, req.email.value, hash(req.password.value), RoleUser, req.phone, None)]
  {
    if EmailTaken(users, req.email) then (Failed(200, AlreadyRegistered), users)
    else if req.password.None? then (Failed(200, IllegalArguments), users)
    else if req.name.None? || req.email.None? then (Failed(200, dbError), users)
    else
      var u := User(newId, req.name.value, req.email.value, hash(req.password.value), RoleUser, req.phone, None);
      (Done(AccountCreated), users + [u])
  }

  /** A citizen who registers directly can then sign in as USER with the
      same email and password (when bcrypt accepts its own hash). */
  lemma RegisteredUserCanLogIn(users: seq<User>, req: RegisterRequest, hash: string -> string, newId: nat, dbError: string,
                               agents: seq<Agent>, passwordOk: (string, string) -> bool)
    requires RegisterDirect(users, req, hash, newId, dbError).0.Done?
    requires req.email.value != "" && req.password.value != ""
    requires passwordOk(req.password.value, hash(req.password.value))
    ensures var users2 := RegisterDirect(users, req, hash, newId, dbError).1;
            Login(users2, agents, LoginRequest(req.email.value, req.password.value, RoleUser), passwordOk)
              == LoggedIn(req.name.value, RoleUser, newId)
  {
    var users2 := RegisterDirect(users, req, hash, newId, dbError).1;
    FindUserAppend(users, users2[|users|], req.email.value);
    assert users2 == users + [users2[|users|]];
  }

  lemma {:induction false} FindUserAppend(users: seq<User>, u: User, email: string)
    requires FindUser(users, email).None? && u.email == email
    ensures FindUser(users + [u], email) == Some(u)
    decreases |users|
  {
    if users == [] {
      assert users + [u] == [u];
    } else {
      assert (users + [u])[1..] == users[1..] + [u];
      FindUserAppend(users[1..], u, email);
    }
  }
}
