/** Signup and login (routes/user.py). Password hashing, password checking and
    token creation are the bcrypt and JWT libraries': they enter as functions
    the handlers are given and about which nothing is assumed. */
module UserRoutes {
  import opened Errors
  import opened Schema

  /** bcrypt's hash of a password (a fresh salt each call in the library). */
  type Hasher = string -> string
  /** bcrypt's check of a password against a stored hash. */
  type Verifier = (string, string) -> bool
  /** `create_token(email, is_admin)`. */
  type TokenIssuer = (string, bool) -> string

  datatype SignupRequest = SignupRequest(email: string, password: string, isAdmin: bool)
  datatype LoginRequest = LoginRequest(email: string, password: string)
  datatype TokenResponse = TokenResponse(accessToken: string, tokenType: string)

  const EmailRegistered := Duplicate("Email already registered")
  const InvalidCredentials := Unauthenticated("Invalid credentials")

  /** `signup`: refuse a registered email, otherwise store the hash of the password. */
  function Signup(db: Db, req: SignupRequest, hash: Hasher): (s: Step<()>)
    ensures s.db.(users := db.users, nextUser := db.nextUser) == db
    ensures s.result.Err? ==> s == Step(Err(EmailRegistered), db)
  {
    if UserWithEmail(db, req.email).Some? then Step(Err(EmailRegistered), db)
    else
      var user := User(req.email, hash(req.password), req.isAdmin);
      Step(Ok(()), db.(users := db.users[db.nextUser := user], nextUser := db.nextUser + 1))
  }

  /** `login`: a read of the users table, then a token from the stored admin flag. */
  function Login(db: Db, req: LoginRequest, verify: Verifier, issue: TokenIssuer): (r: Result<TokenResponse>)
    ensures r.Err? ==> r.error == InvalidCredentials
    ensures r.Ok? ==> r.value.tokenType == "bearer"
    ensures r.Ok? ==> exists k :: k in db.users && db.users[k].email == req.email && verify(req.password, db.users[k].password)
                                  && r.value.accessToken == issue(req.email, db.users[k].isAdmin)
  {
    match UserWithEmail(db, req.email)
    case None => Err(InvalidCredentials)
    case Some(k) =>
      if !verify(req.password, db.users[k].password) then Err(InvalidCredentials)
      else Ok(TokenResponse(issue(req.email, db.users[k].isAdmin), "bearer"))
  }

  // ---------------------------------------------------------------------
  // Signup

  /** Signup succeeds exactly when no stored user has the email. */
  lemma SignupSucceedsIffEmailNew(db: Db, req: SignupRequest, hash: Hasher)
    requires Valid(db)
    ensures Signup(db, req, hash).result.Ok? <==> forall k :: k in db.users ==> db.users[k].email != req.email
  {
  }

  /** A registered email is refused and the tables are left as they were. */
  lemma SignupRejectsRegisteredEmail(db: Db, req: SignupRequest, hash: Hasher, k: int)
    requires Valid(db) && k in db.users && db.users[k].email == req.email
    ensures Signup(db, req, hash) == Step(Err(EmailRegistered), db)
  {
  }

  /** A successful signup adds exactly one user, under a fresh key, holding the
      hash of the password and the requested admin flag; no other table changes. */
  lemma SignupAddsOneUser(db: Db, req: SignupRequest, hash: Hasher)
    requires Valid(db) && Signup(db, req, hash).result.Ok?
    ensures var s := Signup(db, req, hash);
      && db.nextUser !in db.users
      && s.db.users == db.users[db.nextUser := User(req.email, hash(req.password), req.isAdmin)]
      && s.db.(users := db.users, nextUser := db.nextUser) == db
  {
  }

  /** With the check before the insert, emails stay unique. */
  lemma SignupPreservesValid(db: Db, req: SignupRequest, hash: Hasher)
    requires Valid(db)
    ensures Valid(Signup(db, req, hash).db)
  {
  }

  // ---------------------------------------------------------------------
  // Login

  /** For the stored user with the request's email: a password that verifies
      against the stored hash yields a bearer token built from the request
      email and the STORED admin flag; one that does not yields the same error
      as an unknown email. */
  lemma LoginByStoredUser(db: Db, req: LoginRequest, verify: Verifier, issue: TokenIssuer, k: int)
    requires Valid(db) && k in db.users && db.users[k].email == req.email
    ensures Login(db, req, verify, issue) ==
      if verify(req.password, db.users[k].password)
      then Ok(TokenResponse(issue(req.email, db.users[k].isAdmin), "bearer"))
      else Err(InvalidCredentials)
  {
  }

  /** An unknown email is refused with the same error as a wrong password. */
  lemma LoginRejectsUnknownEmail(db: Db, req: LoginRequest, verify: Verifier, issue: TokenIssuer)
    requires Valid(db) && forall k :: k in db.users ==> db.users[k].email != req.email
    ensures Login(db, req, verify, issue) == Err(InvalidCredentials)
  {
  }
}
