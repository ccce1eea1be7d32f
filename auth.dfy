/** The police login: a fixed list of accounts, the credential lookup that returns the
    account without its password, and the login reply. Token signing is a parameter. */
module Auth {
  import opened Wrappers

  datatype User = User(id: string, username: string, password: string, role: string)

  /** An account as handed out: everything but the password. */
  datatype PublicUser = PublicUser(id: string, username: string, role: string)

  const PoliceUsers: seq<User> := [
    User("1", "admin", "traffcon360", "admin"),
    User("2", "officer1", "police123", "officer")
  ]

  predicate Matches(u: User, username: string, password: string) {
    u.username == username && u.password == password
  }

  function WithoutPassword(u: User): PublicUser {
    PublicUser(u.id, u.username, u.role)
  }

  /** `users.find(...)`: the first account whose username and password both match. */
  function FindUser(users: seq<User>, username: string, password: string): (r: Option<User>)
    ensures r.Some? ==> r.value in users && Matches(r.value, username, password)
  {
    if |users| == 0 then None
    else if Matches(users[0], username, password) then Some(users[0])
    else FindUser(users[1..], username, password)
  }

  /** The lookup succeeds exactly when some account matches, and then returns the first. */
  lemma {:induction false} FindUserFirst(users: seq<User>, username: string, password: string)
    ensures FindUser(users, username, password).None? <==>
              forall k :: 0 <= k < |users| ==> !Matches(users[k], username, password)
    ensures forall k :: 0 <= k < |users| && Matches(users[k], username, password)
                        && (forall j :: 0 <= j < k ==> !Matches(users[j], username, password))
                        ==> FindUser(users, username, password) == Some(users[k])
  {
    if |users| > 0 && !Matches(users[0], username, password) {
      FindUserFirst(users[1..], username, password);
      assert forall k :: 1 <= k < |users| ==> users[1..][k - 1] == users[k];
    }
  }

  /** `validateUser`: the matching account without its password, or nothing. */
  function ValidateUser(username: string, password: string): (r: Option<PublicUser>)
    ensures r.Some? <==> exists u :: u in PoliceUsers && Matches(u, username, password)
    ensures r.Some? ==> exists u :: u in PoliceUsers && Matches(u, username, password) && r.value == WithoutPassword(u)
  {
    FindUserFirst(PoliceUsers, username, password);
    match FindUser(PoliceUsers, username, password)
    case None => None
    case Some(u) => Some(WithoutPassword(u))
  }

  /** Each listed account logs in with its own password, and as itself. */
  lemma ListedAccountsValidate()
    ensures ValidateUser("admin", "traffcon360") == Some(PublicUser("1", "admin", "admin"))
    ensures ValidateUser("officer1", "police123") == Some(PublicUser("2", "officer1", "officer"))
  {
    assert Matches(PoliceUsers[0], "admin", "traffcon360");
    assert !Matches(PoliceUsers[0], "officer1", "police123");
    assert Matches(PoliceUsers[1], "officer1", "police123");
  }

  /** A known username with another account's password is refused. */
  lemma CrossedPasswordRefused()
    ensures ValidateUser("admin", "police123").None?
  {
    assert !Matches(PoliceUsers[0], "admin", "police123");
    assert !Matches(PoliceUsers[1], "admin", "police123");
  }

  /** The claims signed into the token. */
  datatype TokenPayload = TokenPayload(sub: string, username: string, role: string)

  datatype LoginReply =
    | InvalidCredentials(error: string)
    | LoggedIn(accessToken: string, user: PublicUser)

  /** `login`: an error for unknown credentials; otherwise the token signed over the
      account's id, name and role, and the account without its password. */
  function Login(sign: TokenPayload -> string, username: string, password: string): (r: LoginReply)
    ensures r.InvalidCredentials? <==> ValidateUser(username, password).None?
    ensures r.InvalidCredentials? ==> r.error == "Invalid credentials"
    ensures r.LoggedIn? ==> exists u :: u in PoliceUsers && Matches(u, username, password)
                                        && r.user == WithoutPassword(u)
                                        && r.accessToken == sign(TokenPayload(u.id, u.username, u.role))
  {
    match ValidateUser(username, password)
    case None => InvalidCredentials("Invalid credentials")
    case Some(user) => LoggedIn(sign(TokenPayload(user.id, user.username, user.role)), user)
  }
}
