/** Registration and login over the stored users, keyed by e-mail. Password hashing and
    comparison, and token signing, are outside the model: the password check and the token
    issuer are parameters. */
module Auth {
  import opened Wrappers

  type UserId = nat

  /** A signed token; its contents are whatever the issuer makes of a user id. */
  type Token = string

  /** A stored user. `password` is the password as received; hashing is left to `comparePassword`. */
  datatype User = User(id: UserId, name: string, email: string, password: string)

  /** The stored users by e-mail, and the next unused user id. */
  datatype Users = Users(byEmail: map<string, User>, nextId: nat)

  /** 400 "e-mail already registered" and 401 "invalid credentials". */
  datatype AuthErr = EmailTaken | InvalidCredentials

  datatype AuthReply = AuthReply(users: Users, result: Result<Token, AuthErr>)

  /** Each user is stored under its own e-mail, with an id already handed out and unique. */
  predicate UsersInv(us: Users) {
    && (forall e :: e in us.byEmail ==> us.byEmail[e].email == e && us.byEmail[e].id < us.nextId)
    && (forall e, e' :: e in us.byEmail && e' in us.byEmail && e != e' ==> us.byEmail[e].id != us.byEmail[e'].id)
  }

  /** POST /register: refuses a taken e-mail; otherwise stores one new user and issues a
      token for its id. */
  function Register(us: Users, name: string, email: string, password: string,
                    issueToken: UserId -> Token): (r: AuthReply)
    ensures r.result.Failure? <==> email in us.byEmail
    ensures r.result.Failure? ==> r.users == us && r.result.error == EmailTaken
    ensures r.result.Success? ==>
              && r.users.byEmail.Keys == us.byEmail.Keys + {email}
              && (forall e :: e in us.byEmail ==> r.users.byEmail[e] == us.byEmail[e])
              && r.users.byEmail[email] == User(us.nextId, name, email, password)
              && r.users.nextId == us.nextId + 1
              && r.result.value == issueToken(us.nextId)
  {
    if email in us.byEmail then AuthReply(us, Failure(EmailTaken))
    else
      var u := User(us.nextId, name, email, password);
      AuthReply(Users(us.byEmail[email := u], us.nextId + 1), Success(issueToken(u.id)))
  }

  /** POST /login: a token for the user stored under `email` when the password matches.
      The stored users are only read. */
  function Login(us: Users, email: string, password: string,
                 comparePassword: (User, string) -> bool, issueToken: UserId -> Token): (r: Result<Token, AuthErr>)
    ensures r.Success? <==> email in us.byEmail && comparePassword(us.byEmail[email], password)
    ensures r.Failure? ==> r.error == InvalidCredentials
    ensures r.Success? ==> r.value == issueToken(us.byEmail[email].id)
  {
    if email !in us.byEmail then Failure(InvalidCredentials)
    else
      var u := us.byEmail[email];
      if !comparePassword(u, password) then Failure(InvalidCredentials)
      else Success(issueToken(u.id))
  }

  lemma RegisterPreservesInv(us: Users, name: string, email: string, password: string, issueToken: UserId -> Token)
    requires UsersInv(us)
    ensures UsersInv(Register(us, name, email, password, issueToken).users)
  {
  }

  /** Registering the same e-mail twice: the second call is refused and stores nothing. */
  lemma RegisterTwiceRefused(us: Users, name: string, email: string, password: string,
                             name': string, password': string, issueToken: UserId -> Token)
    ensures var us' := Register(us, name, email, password, issueToken).users;
            Register(us', name', email, password', issueToken) == AuthReply(us', Failure(EmailTaken))
  {
  }

  /** A freshly registered user whose password check accepts the password logs in. Each call
      has its own issuer, since the issue time and expiry differ between the two; both tokens
      are issued for the new user's id. */
  lemma RegisterThenLogin(us: Users, name: string, email: string, password: string,
                          comparePassword: (User, string) -> bool,
                          issueAtRegister: UserId -> Token, issueAtLogin: UserId -> Token)
    requires email !in us.byEmail
    requires comparePassword(User(us.nextId, name, email, password), password)
    ensures var r := Register(us, name, email, password, issueAtRegister);
            && r.result == Success(issueAtRegister(us.nextId))
            && Login(r.users, email, password, comparePassword, issueAtLogin) == Success(issueAtLogin(us.nextId))
  {
  }

  /** An unknown e-mail and a wrong password produce the same answer. */
  lemma LoginFailuresIndistinguishable(us: Users, unknown: string, known: string, p: string, p': string,
                                       comparePassword: (User, string) -> bool, issueToken: UserId -> Token)
    requires unknown !in us.byEmail
    requires known in us.byEmail && !comparePassword(us.byEmail[known], p')
    ensures Login(us, unknown, p, comparePassword, issueToken) == Login(us, known, p', comparePassword, issueToken)
  {
  }
}
