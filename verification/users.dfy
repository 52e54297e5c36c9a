/** The `/signup` and `/login` handlers of apps/server/routes/v1/users.ts as
    transitions of the user table. bcrypt and jwt are parameters; each awaited
    database or bcrypt call may throw, and what it throws is an input
    (`...Fault`), classified by the handler's `catch` block. */
module Users {
  import opened Outcomes
  import opened Js
  import opened Db
  import opened Schemas
  import opened Http
  import opened Jwt
  import opened Cascade

  /** bcrypt: `hash(password, salt)` and `compare(password, digest)`. The salt
      is the randomness `bcrypt.hash` draws. */
  datatype Bcrypt = Bcrypt(hash: (string, string) -> string, compare: (string, string) -> bool)

  /** A digest is never empty and matches the password it was made from. */
  ghost predicate Sound(crypto: Bcrypt) {
    forall p, salt {:trigger crypto.hash(p, salt)} ::
      crypto.hash(p, salt) != "" && crypto.compare(p, crypto.hash(p, salt))
  }

  /** What the awaited calls of one signup do: the throw of `findUnique`,
      `bcrypt.hash` and `create` (if any), the salt, and the id the database
      assigns to the new row. */
  datatype SignupEffects = SignupEffects(
    findFault: Option<Thrown>,
    hashFault: Option<Thrown>,
    createFault: Option<Thrown>,
    salt: string,
    newId: string)

  /** What the awaited calls of one login do: the throw of `findUnique` and
      `bcrypt.compare` (if any), and the clock in seconds for `jwt.sign`. */
  datatype LoginEffects = LoginEffects(
    findFault: Option<Thrown>,
    compareFault: Option<Thrown>,
    now: nat)

  /** A Prisma unique-constraint violation. */
  predicate IsUniqueViolation(e: Thrown) {
    IsPrismaError(e) && e.code == Some("P2002")
  }

  /** The `catch` block of `/signup`: the Prisma unique-constraint test comes
      first, then the `Error` name and message tests. */
  function ClassifySignupError(e: Thrown): (r: Response)
    ensures r.status == 409 <==> IsUniqueViolation(e)
    ensures r.status == 409 ==> r == Fail(409, "Username already exists")
    ensures r.status == 400 <==> !IsUniqueViolation(e) && IsError(e) && e.name == "ValidationError"
    ensures r.status == 400 ==> r == Fail(400, "Invalid user data")
    // A bcrypt failure is named only when no earlier test claims the error.
    ensures r == Fail(500, "Password hashing failed") <==>
      && !IsUniqueViolation(e) && IsError(e) && e.name != "ValidationError"
      && Includes(e.message, "bcrypt")
    ensures r.status == 400 || r.status == 409 || r.status == 500
    ensures r.status == 500 && r != Fail(500, "Password hashing failed") ==> r == Fail(500, "Internal server error")
    ensures !IsError(e) && !IsUniqueViolation(e) ==> r == Fail(500, "Internal server error")
  {
    if IsUniqueViolation(e) then Fail(409, "Username already exists")
    else if IsError(e) && e.name == "ValidationError" then Fail(400, "Invalid user data")
    else if IsError(e) && Includes(e.message, "bcrypt") then Fail(500, "Password hashing failed")
    else Fail(500, "Internal server error")
  }

  /** The signup `catch` block as an ordered table. */
  const SignupErrorRules: seq<Rule> := [
    Rule(CodeIs("P2002"), Fail(409, "Username already exists")),
    Rule(NameIs("ValidationError"), Fail(400, "Invalid user data")),
    Rule(MessageIncludes("bcrypt"), Fail(500, "Password hashing failed"))
  ]

  /** The signup cascade is the first match of its table, with 500
      "Internal server error" when no rule matches. */
  lemma SignupCatchFollowsTable(e: Thrown)
    ensures ClassifySignupError(e) == Classify(SignupErrorRules, Fail(500, "Internal server error"), e)
  {
    var rs := SignupErrorRules;
    assert FirstMatch(rs[1..], e) == if Matches(rs[1].test, e) then Some(rs[1].response) else FirstMatch(rs[2..], e);
    assert FirstMatch(rs[2..], e) == if Matches(rs[2].test, e) then Some(rs[2].response) else FirstMatch(rs[3..], e);
    assert FirstMatch(rs[3..], e) == None;
  }

  /** `POST /users/signup`. */
  function Signup(users: UserTable, body: Body, crypto: Bcrypt, fx: SignupEffects): (r: Step<UserTable>)
    // Rejected input: 400 with zod's issues, nothing written.
    ensures CreateUserSchema(body).Invalid? ==>
      r == Step(users, Response(400, InvalidInput("Invalid input data", CreateUserSchema(body).issues)))
    // The `!username || !password` guard never fires.
    ensures r.response != Fail(400, "Username and password are required")
    // A taken username: 409, nothing written.
    ensures (CreateUserSchema(body).Valid? && fx.findFault.None?
      && CreateUserSchema(body).data.username in users) ==>
      r == Step(users, Fail(409, "Username already exists"))
    // A unique-constraint violation at insert time is a 409 too.
    ensures (CreateUserSchema(body).Valid? && fx.findFault.None?
      && CreateUserSchema(body).data.username !in users && fx.hashFault.None?
      && fx.createFault.Some? && IsUniqueViolation(fx.createFault.value)) ==>
      r == Step(users, Fail(409, "Username already exists"))
    // Whatever an awaited call throws goes to the `catch` block; nothing is written.
    ensures CreateUserSchema(body).Valid? && fx.findFault.Some? ==>
      r == Step(users, ClassifySignupError(fx.findFault.value))
    ensures (CreateUserSchema(body).Valid? && fx.findFault.None?
      && CreateUserSchema(body).data.username !in users && fx.hashFault.Some?) ==>
      r == Step(users, ClassifySignupError(fx.hashFault.value))
    ensures (CreateUserSchema(body).Valid? && fx.findFault.None?
      && CreateUserSchema(body).data.username !in users && fx.hashFault.None?
      && fx.createFault.Some?) ==>
      r == Step(users, ClassifySignupError(fx.createFault.value))
    ensures r.response.status in {201, 400, 409, 500}
    ensures r.response.status != 201 ==> r.store == users
    // Success exactly when input, lookup, hashing and insert all go through.
    ensures r.response.status == 201 <==>
      && CreateUserSchema(body).Valid?
      && CreateUserSchema(body).data.username !in users
      && fx.findFault.None? && fx.hashFault.None? && fx.createFault.None?
    // The one new row holds the digest, not the password; every other row stays.
    ensures r.response.status == 201 ==>
      var input := CreateUserSchema(body).data;
      var user := User(fx.newId, input.username, crypto.hash(input.password, fx.salt));
      && r.store == users[input.username := user]
      && r.store.Keys == users.Keys + {input.username}
      && (forall u :: u in users ==> r.store[u] == users[u])
      && r.response.payload == UserCreated(fx.newId, input.username, "User created successfully")
  {
    match CreateUserSchema(body)
    case Invalid(issues) =>
      Step(users, Response(400, InvalidInput("Invalid input data", issues)))
    case Valid(input) =>
      if input.username == "" || input.password == "" then
        Step(users, Fail(400, "Username and password are required"))
      else if fx.findFault.Some? then
        Step(users, ClassifySignupError(fx.findFault.value))
      else if FindUser(users, input.username).Some? then
        Step(users, Fail(409, "Username already exists"))
      else if fx.hashFault.Some? then
        Step(users, ClassifySignupError(fx.hashFault.value))
      else
        var hashed := crypto.hash(input.password, fx.salt);
        if fx.createFault.Some? then
          Step(users, ClassifySignupError(fx.createFault.value))
        else
          var user := User(fx.newId, input.username, hashed);
          Step(users[input.username := user],
               Response(201, UserCreated(user.id, user.username, "User created successfully")))
  }

  /** The `catch` block of `/login`: unlike signup's, it tests the `Error`
      cases before the Prisma one, so an `Error` carrying a `code` is a
      database error only when its name and message say nothing else. */
  function ClassifyLoginError(e: Thrown): (r: Response)
    ensures r.status == 400 <==> IsError(e) && e.name == "ValidationError"
    ensures r.status == 400 ==> r == Fail(400, "Invalid login data")
    ensures r == Fail(500, "Authentication system error") <==>
      IsError(e) && e.name != "ValidationError" && Includes(e.message, "bcrypt")
    ensures r == Fail(500, "Database connection error") <==>
      IsPrismaError(e) && !(IsError(e) && (e.name == "ValidationError" || Includes(e.message, "bcrypt")))
    ensures r.status == 400 || r.status == 500
    ensures (!IsPrismaError(e) && !(IsError(e) && (e.name == "ValidationError" || Includes(e.message, "bcrypt")))) ==>
      r == Fail(500, "Internal server error")
    ensures !IsError(e) && IsPrismaError(e) ==> r == Fail(500, "Database connection error")
    ensures !IsError(e) && !IsPrismaError(e) ==> r == Fail(500, "Internal server error")
  {
    if IsError(e) && e.name == "ValidationError" then Fail(400, "Invalid login data")
    else if IsError(e) && Includes(e.message, "bcrypt") then Fail(500, "Authentication system error")
    else if IsPrismaError(e) then Fail(500, "Database connection error")
    else Fail(500, "Internal server error")
  }

  /** The login `catch` block as an ordered table. */
  const LoginErrorRules: seq<Rule> := [
    Rule(NameIs("ValidationError"), Fail(400, "Invalid login data")),
    Rule(MessageIncludes("bcrypt"), Fail(500, "Authentication system error")),
    Rule(HasCode, Fail(500, "Database connection error"))
  ]

  /** The login cascade is the first match of its table, with 500
      "Internal server error" when no rule matches. */
  lemma LoginCatchFollowsTable(e: Thrown)
    ensures ClassifyLoginError(e) == Classify(LoginErrorRules, Fail(500, "Internal server error"), e)
  {
    var rs := LoginErrorRules;
    assert FirstMatch(rs[1..], e) == if Matches(rs[1].test, e) then Some(rs[1].response) else FirstMatch(rs[2..], e);
    assert FirstMatch(rs[2..], e) == if Matches(rs[2].test, e) then Some(rs[2].response) else FirstMatch(rs[3..], e);
    assert FirstMatch(rs[3..], e) == None;
  }

  /** The input passes `LoginUserSchema`, names a stored user whose digest is
      non-empty, and the lookup did not throw. */
  predicate KnownAccount(users: UserTable, body: Body, fx: LoginEffects) {
    && LoginUserSchema(body).Valid?
    && fx.findFault.None?
    && LoginUserSchema(body).data.username in users
    && users[LoginUserSchema(body).data.username].password != ""
  }

  /** `POST /users/login`, signing with `secret` (`JWT_SECRET`). */
  function Login(users: UserTable, body: Body, crypto: Bcrypt, sign: Signer, secret: Option<string>,
                 fx: LoginEffects): (r: Step<UserTable>)
    ensures r.store == users
    ensures LoginUserSchema(body).Invalid? ==>
      r.response == Response(400, InvalidInput("Invalid input data", LoginUserSchema(body).issues))
    ensures r.response != Fail(400, "Username and password are required")
    // Unknown user.
    ensures (LoginUserSchema(body).Valid? && fx.findFault.None?
      && LoginUserSchema(body).data.username !in users) ==>
      r.response == Fail(401, "Invalid credentials")
    // An empty stored digest is refused before any comparison.
    ensures (LoginUserSchema(body).Valid? && fx.findFault.None?
      && LoginUserSchema(body).data.username in users
      && users[LoginUserSchema(body).data.username].password == "") ==>
      r.response == Fail(500, "User account error")
    // Wrong password: the very same response as an unknown user.
    ensures (KnownAccount(users, body, fx) && fx.compareFault.None?
      && !crypto.compare(LoginUserSchema(body).data.password,
                         users[LoginUserSchema(body).data.username].password)) ==>
      r.response == Fail(401, "Invalid credentials")
    // Whatever `findUnique`, `bcrypt.compare` or `jwt.sign` throws goes to the
    // `catch` block.
    ensures LoginUserSchema(body).Valid? && fx.findFault.Some? ==>
      r.response == ClassifyLoginError(fx.findFault.value)
    ensures KnownAccount(users, body, fx) && fx.compareFault.Some? ==>
      r.response == ClassifyLoginError(fx.compareFault.value)
    ensures (KnownAccount(users, body, fx) && fx.compareFault.None?
      && crypto.compare(LoginUserSchema(body).data.password,
                        users[LoginUserSchema(body).data.username].password)
      && !NonEmpty(secret)) ==>
      r.response == ClassifyLoginError(MissingKey)
    ensures r.response.status in {200, 400, 401, 500}
    ensures r.response.status == 200 <==>
      && KnownAccount(users, body, fx) && fx.compareFault.None?
      && crypto.compare(LoginUserSchema(body).data.password,
                        users[LoginUserSchema(body).data.username].password)
      && NonEmpty(secret)
    // The token's subject is the user's id and it expires seven days on.
    ensures r.response.status == 200 ==>
      var user := users[LoginUserSchema(body).data.username];
      r.response.payload == LoginSucceeded(
        sign(Claims(user.id, fx.now, fx.now + TokenLifetime), secret.value), "Login successful")
  {
    match LoginUserSchema(body)
    case Invalid(issues) =>
      Step(users, Response(400, InvalidInput("Invalid input data", issues)))
    case Valid(input) =>
      if input.username == "" || input.password == "" then
        Step(users, Fail(400, "Username and password are required"))
      else if fx.findFault.Some? then
        Step(users, ClassifyLoginError(fx.findFault.value))
      else
        match FindUser(users, input.username)
        case None => Step(users, Fail(401, "Invalid credentials"))
        case Some(user) =>
          if user.password == "" then
            Step(users, Fail(500, "User account error"))
          else if fx.compareFault.Some? then
            Step(users, ClassifyLoginError(fx.compareFault.value))
          else if !crypto.compare(input.password, user.password) then
            Step(users, Fail(401, "Invalid credentials"))
          else
            match Sign(sign, user.id, secret, fx.now)
            case Failure(e) => Step(users, ClassifyLoginError(e))
            case Success(token) => Step(users, Response(200, LoginSucceeded(token, "Login successful")))
  }

  /** What `jwt.sign` throws without a key falls through every specific test
      of the login `catch` block. */
  lemma MissingKeyIsGeneric()
    ensures IsError(MissingKey) && MissingKey.name != "ValidationError"
    ensures !Includes(MissingKey.message, "bcrypt")
    ensures ClassifyLoginError(MissingKey) == Fail(500, "Internal server error")
  {
    var message := MissingKey.message;
    assert forall i :: 0 <= i < |message| ==> message[i] != 'b';
    if Includes(message, "bcrypt") {
      IncludesHasFirst(message, "bcrypt");
    }
  }

  /** Login without a configured secret fails inside `jwt.sign`, and the
      `catch` block turns that into a plain 500. */
  lemma LoginWithoutSecret(users: UserTable, body: Body, crypto: Bcrypt, sign: Signer,
                           secret: Option<string>, fx: LoginEffects)
    requires KnownAccount(users, body, fx) && fx.compareFault.None?
    requires crypto.compare(LoginUserSchema(body).data.password,
                            users[LoginUserSchema(body).data.username].password)
    requires !NonEmpty(secret)
    ensures Login(users, body, crypto, sign, secret, fx).response == Fail(500, "Internal server error")
  {
    var input := LoginUserSchema(body).data;
    var user := users[input.username];
    assert Sign(sign, user.id, secret, fx.now) == Failure(MissingKey);
    MissingKeyIsGeneric();
  }

  /** An unknown username and a wrong password are indistinguishable: both
      requests get exactly the same response. */
  lemma UnknownUserLooksLikeWrongPassword(
    users: UserTable, unknown: Body, wrong: Body, crypto: Bcrypt, sign: Signer,
    secret: Option<string>, fx: LoginEffects)
    requires LoginUserSchema(unknown).Valid? && fx.findFault.None?
    requires LoginUserSchema(unknown).data.username !in users
    requires KnownAccount(users, wrong, fx) && fx.compareFault.None?
    requires !crypto.compare(LoginUserSchema(wrong).data.password,
                             users[LoginUserSchema(wrong).data.username].password)
    ensures Login(users, unknown, crypto, sign, secret, fx).response
         == Login(users, wrong, crypto, sign, secret, fx).response
  {
  }

  /** A successful signup keeps the table consistent when the database hands
      out a fresh id, and grows it by exactly one row. */
  lemma SignupPreservesConsistency(users: UserTable, body: Body, crypto: Bcrypt, fx: SignupEffects)
    requires UsersConsistent(users) && IdUnused(users, fx.newId)
    ensures UsersConsistent(Signup(users, body, crypto, fx).store)
    ensures Signup(users, body, crypto, fx).response.status == 201 ==>
      |Signup(users, body, crypto, fx).store| == |users| + 1
  {
  }
}
