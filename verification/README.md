# Betterstack server core in Dafny

A model of the request-handling logic of the Betterstack monitoring backend's
Express server: the bearer-token authentication middleware, the user
registry's `/signup` and `/login` handlers, the zod input schemas, and the
website `/create_url` handler. Each handler is a pure function from a store
(a finite map standing for a database table) and a request to the store after
the request and the response sent. The libraries the handlers call are
parameters:

- bcrypt is a pair of functions `hash(password, salt)` and
  `compare(password, digest)`. The lemmas that need them to behave assume
  `Sound`: a digest is non-empty and matches its password.
- `jwt.sign` is a `Signer` from claims and key to a token string.
  `jwt.verify` is a `Verifier` from token and key to either a decoded payload
  or a thrown value. `Agree` relates the two for the end-to-end lemma.
- Prisma is a map per table. Every awaited call that can throw has an
  `Option<Thrown>` fault input, and the handler's `catch` block classifies
  that input exactly as the source does. The fresh row id and the bcrypt salt
  are inputs too.
- The `JWT_SECRET` environment variable is an `Option<string>` parameter.
  The clock is a `now` parameter in seconds.

Modules:

- `Outcomes`: `Option` and `Result`.
- `Js`: JSON values, truthiness, thrown values, and the string operations
  `startsWith`, `includes` and `split`.
- `Db`: the rows and the tables.
- `Schemas`: the zod schemas.
- `Http`: the response shapes.
- `Jwt`: the claims and the sign/verify interface.
- `Cascade`: the ordered tests of a `catch` block, shared by the middleware
  and both user handlers.
- `Auth`: the middleware.
- `Users`: signup and login.
- `Websites`: `create_url`.
- `Flows`: properties that span several requests.

## Notes on the code

The model follows the code as written. Some of its behaviour is easy to
miss:

- The website router is mounted without the authentication gate
  (apps/server/routes/v1/index.ts:8), so `create_url` runs for any caller.
- `create_url` copies `userId` from the request body
  (apps/server/routes/v1/websites.ts:15; `Websites.OwnerComesFromBody`).
- `create_url` answers 410 "URL is required" when `url` is missing or falsy,
  and it never calls `CreateWebsiteSchema`
  (apps/server/routes/v1/websites.ts:8-10;
  `Websites.EmptyUrlPassesSchemaButNotHandler`).
- The `get_url/:id` route is a stub that echoes its parameter.
- In the middleware's `catch` block the `JsonWebTokenError` name test comes
  before the "jwt malformed" and "invalid signature" message tests, so those
  two message tests are reached only by errors with other names
  (`Auth.NameTakesPrecedence`).
- Signup's `catch` block says "Password hashing failed" only for an `Error`
  whose message contains `bcrypt`. Any other error thrown by `bcrypt.hash`
  falls through to the block's remaining tests: a P2002 `code` gives 409, an
  Error named ValidationError gives 400, and anything else gives 500
  "Internal server error" (apps/server/routes/v1/users.ts:57-75).

## Model

| member | source | states |
|---|---|---|
| Auth.Authenticate | apps/server/middlewares/auth_middleware.ts:22-93 | The header checks come first, whatever the secret: no or empty header gives 401 "Authorization header required", a header without the case-sensitive "Bearer " prefix gives 401 "Bearer token required", and an empty token after the prefix gives 401 "Token not provided". A well-formed header with no secret gives 500 "Server configuration error", never 401. The request goes on (`Next`) exactly when the token verifies under the secret with a truthy `sub`, and then the user id is that `sub`; a falsy `sub` gives 401 "Invalid token payload". A verification error is classified by the catch block. The outcome is one value, so the gate either calls `next` once or sends one response, never both |
| Auth.BearerTokenAfterPrefix | apps/server/middlewares/auth_middleware.ts:36-41 | For a header that starts with "Bearer ", `split(' ')[1]` is the text after the prefix up to the next space. So "Bearer " alone and "Bearer  x" both yield the empty token |
| Auth.ClassifyVerifyError | apps/server/middlewares/auth_middleware.ts:60-92 | TokenExpiredError gives "Token expired", JsonWebTokenError "Invalid token" and NotBeforeError "Token not active", all 401. Every other outcome is either a 401 or exactly 500 "Authentication error", and a thrown non-Error is always the 500 |
| Auth.ClassifyFollowsTable | apps/server/middlewares/auth_middleware.ts:60-92 | For every thrown value, the catch block equals the first match in an ordered rule table: three error names, then two message fragments, each selecting its 401 message. When no rule matches, including for every thrown non-Error, the answer is 500 "Authentication error" |
| Cascade.FirstMatch | apps/server/middlewares/auth_middleware.ts:63-87 | The first-match scan of a catch block returns a response exactly when some rule matches. It returns the response of a matching rule that no earlier rule precedes |
| Auth.NameTakesPrecedence | apps/server/middlewares/auth_middleware.ts:69-84 | A JsonWebTokenError is "Invalid token" whatever its message, even "jwt malformed" or "invalid signature": the name tests run before the message tests |
| Js.Split | apps/server/middlewares/auth_middleware.ts:36 | `split` on one character yields at least one piece. Joining the pieces with the separator gives back the string, and no piece contains the separator |
| Js.SplitJoin | apps/server/middlewares/auth_middleware.ts:36 | Split inverts Join on separator-free pieces, so the pieces `split` returns are the only ones with those properties |
| Js.SplitHead | apps/server/middlewares/auth_middleware.ts:36 | The first piece of a split is the text before the first separator |
| Js.SplitAfterWord | apps/server/middlewares/auth_middleware.ts:36 | Splitting a separator-free word, a separator and a remainder gives the word followed by the pieces of the remainder |
| Schemas.CreateUserSchema | apps/server/types.ts:9-13 | Accepts exactly when the username is a string of at least 3 characters, the password a string of at least 6, and `name` absent or a string. A missing or too-short field is rejected, with at least one issue naming a schema field. The parsed data is the body's fields |
| Schemas.LoginUserSchema | apps/server/types.ts:17-20 | Accepts exactly when the username is a string of at least 3 characters and the password a string of at least 6. The credentials are the body's fields |
| Schemas.CreateWebsiteSchema | apps/server/types.ts:3-5 | Accepts exactly when `url` is a string, of any content or length |
| Schemas.NameDoesNotAffectCredentials | apps/server/types.ts:12 | Adding or removing a string `name` changes neither the signup schema's verdict nor the credentials it yields |
| Schemas.LoginAcceptsWhatSignupAccepts | apps/server/types.ts:9-20 | On every body whose `name` is absent or a string, the login and signup schemas accept the same bodies and yield the same credentials |
| Schemas.WebsiteSchemaAcceptsAnyString | apps/server/types.ts:3-5 | The website schema accepts every string url, including the empty string, and imposes no URL syntax |
| Users.ClassifySignupError | apps/server/routes/v1/users.ts:57-75 | An object with `code` "P2002" gives 409 "Username already exists", and it is the only way to get a 409. Otherwise an Error named ValidationError gives 400 "Invalid user data", the only 400. Otherwise an Error whose message contains "bcrypt" gives 500 "Password hashing failed", and nothing else does. Every remaining value, including every thrown non-Error without that code, gives 500 "Internal server error" |
| Users.SignupCatchFollowsTable | apps/server/routes/v1/users.ts:60-74 | For every thrown value, the signup catch block equals the first match in the ordered table: P2002 code, then the ValidationError name, then the "bcrypt" message fragment. When no rule matches, the answer is 500 "Internal server error" |
| Users.Signup | apps/server/routes/v1/users.ts:18-76 | Schema-rejected input gives 400 with the zod issues and leaves the store unchanged. The 400 for an empty username or password is never sent. A taken username, or a P2002 error at insert time, gives 409 with the store unchanged. Whatever `findUnique`, `bcrypt.hash` or `create` throws is answered by the catch block's classification, with the store unchanged. Every non-201 leaves the store unchanged. The response is 201 exactly when the input passes, the username is new and no awaited call throws. Then exactly one row is added, holding the new id, the username and the bcrypt digest rather than the password; every other row is kept; and the response carries the id, the username and "User created successfully" |
| Users.ClassifyLoginError | apps/server/routes/v1/users.ts:119-137 | Only an Error named ValidationError gives 400, with "Invalid login data"; everything else is 500. Otherwise an Error whose message contains "bcrypt" gives "Authentication system error", and nothing else does. Otherwise any object with a `code`, an Error included, gives "Database connection error", and nothing else does. Every remaining value gives "Internal server error" |
| Users.LoginCatchFollowsTable | apps/server/routes/v1/users.ts:122-136 | For every thrown value, the login catch block equals the first match in the ordered table: the ValidationError name, then the "bcrypt" message fragment, then any `code`. When no rule matches, the answer is 500 "Internal server error" |
| Users.Login | apps/server/routes/v1/users.ts:78-138 | The store is never modified. Schema-rejected input gives 400 with the issues, and the required-fields 400 is never sent. An unknown user gives 401 "Invalid credentials". An empty stored digest gives 500 "User account error" before any comparison. A wrong password gives the same 401 as an unknown user. Whatever `findUnique`, `bcrypt.compare` or `jwt.sign` throws is answered by the catch block's classification, and without a secret that is the classification of the missing-key error. The response is 200 exactly when the account is known, the password matches and the secret is set. The token is then signed over subject = the user's id with a seven-day expiry, with "Login successful" |
| Users.MissingKeyIsGeneric | apps/server/routes/v1/users.ts:119-137 | What `jwt.sign` throws without a key passes none of the login catch block's specific tests and becomes 500 "Internal server error" |
| Users.LoginWithoutSecret | apps/server/routes/v1/users.ts:106-137 | With correct credentials but no configured secret, login answers 500 "Internal server error" |
| Users.UnknownUserLooksLikeWrongPassword | apps/server/routes/v1/users.ts:98-110 | An unknown username and a wrong password for a known user get identical responses |
| Users.SignupPreservesConsistency | apps/server/routes/v1/users.ts:34-55 | When the database hands out a fresh id, signup keeps every row under its own username with ids unique, and a 201 grows the table by exactly one row |
| Flows.SignedTokenPassesGate | apps/server/routes/v1/users.ts:112 | With a set secret and a non-empty subject, signing succeeds, and the token it issues over subject, issue time and a seven-day (604800 s) expiry, presented as "Bearer <token>" (auth_middleware.ts:36-58) before it expires, passes the gate with the subject as the user id, provided sign and verify agree |
| Websites.CreateUrl | apps/server/routes/v1/websites.ts:7-19 | A missing or falsy `url` (`""`, `0`, `false`, `null`) gives 410 "URL is required" and inserts nothing. Otherwise a throwing insert escapes the handler unanswered. A successful insert gives 201, carries the one inserted row, and that row holds the request's `url` and `userId` verbatim |
| Websites.CreateUrlInsertsOne | apps/server/routes/v1/websites.ts:11-18 | With a fresh id, a 201 adds exactly one row, a 410 adds none, and every existing row is kept |
| Websites.OwnerComesFromBody | apps/server/routes/v1/websites.ts:15 | The stored `userId` is whatever the request body carries; no authenticated identity is involved |
| Websites.EmptyUrlPassesSchemaButNotHandler | apps/server/routes/v1/websites.ts:8-10 | The empty url passes `CreateWebsiteSchema`, yet the handler answers 410 and inserts nothing |
| Flows.SecondSignupConflicts | apps/server/routes/v1/users.ts:34-40 | After a successful signup, a second signup for the same username, with any password, gives 409 and writes nothing |
| Flows.SignupLoginAuthenticate | apps/server/routes/v1/users.ts:106-117 | Suppose bcrypt is sound, sign and verify agree, and the token has not expired. Then signup gives 201, and login with the same body gives 200. Presenting the token as "Bearer <token>" passes the gate with the new user's id |

## Left out

- Express routing and process start-up (the `index.ts` files) are not modelled. The `status.ts` route and the `get_url/:id` stub are not modelled either: they only echo a parameter, and the stub's path lacks its leading slash.
- `console.error` logging is not modelled: it changes no response.
- bcrypt's algorithm and work factor, and jsonwebtoken's encoding, signing and time checks, are not modelled. They are the parameters described above, and the properties that need them assume `Sound` and `Agree`.
- The race between `findUnique` and `create` in signup is not modelled as concurrency. Its visible effect, a P2002 error from `create`, is a fault input.
- The Prisma schema is not part of this model. Website rows store the body's JSON values as they are, and whatever Prisma would reject about them is the fault input of `create`.
- What Express does after `create_url`'s promise rejects is not modelled: Express 4 sends nothing and Express 5 sends a 500.
- Request bodies are JSON objects. A missing body and a non-object body are not modelled.
- Exceptions thrown by `res.status().json()` or by `next()` are not modelled.
- Schemas.CreateUserSchema: string lengths count Dafny characters (Unicode scalar values), not UTF-16 code units as JavaScript's `length` and zod's `min` do, so a string with characters outside the Basic Multilingual Plane is shorter here than in the source.
- Schemas.LoginUserSchema: the same length caveat applies.
- Schemas.CreateUserSchema: zod's issue messages are not modelled. An issue carries only its path and its kind (wrong type, or too small with its minimum).
- Auth.Authenticate: the payload `jwt.verify` returns is modelled only by its `sub` claim, the one the middleware reads.
