/** Properties that span several requests: registering twice, and the path
    from signup through login to the authentication gate. */
module Flows {
  import opened Outcomes
  import opened Js
  import opened Db
  import opened Schemas
  import opened Http
  import opened Jwt
  import opened Auth
  import opened Users

  /** A token `Sign` issues for a non-empty subject, presented as
      `Bearer <token>` before it expires, passes the gate with that subject as
      the user id: signing and the gate agree on claims, header layout and
      secret. */
  lemma SignedTokenPassesGate(sign: Signer, verify: Verifier, sub: string, secret: Option<string>,
                              now: nat, at: nat)
    requires Agree(sign, verify, at) && NonEmpty(secret) && sub != "" && at < now + TokenLifetime
    ensures Sign(sign, sub, secret, now).Success?
    ensures Authenticate(Some(BearerPrefix + Sign(sign, sub, secret, now).value), secret, verify)
         == Next(Str(sub))
  {
    var token := Sign(sign, sub, secret, now).value;
    assert token == sign(Claims(sub, now, now + TokenLifetime), secret.value);
    assert token != "" && ' ' !in token;
    var header := BearerPrefix + token;
    assert header[|BearerPrefix|..] == token;
    TakeUntilAbsent(token, ' ');
    assert PresentedToken(Some(header)) == Some(token);
  }

  /** Once a username is registered, a second signup for it (whatever the
      password) is a 409 and writes nothing. */
  lemma SecondSignupConflicts(users: UserTable, first: Body, second: Body, crypto: Bcrypt,
                              fx1: SignupEffects, fx2: SignupEffects)
    requires Signup(users, first, crypto, fx1).response.status == 201
    requires CreateUserSchema(second).Valid? && fx2.findFault.None?
    requires CreateUserSchema(second).data.username == CreateUserSchema(first).data.username
    ensures var after := Signup(users, first, crypto, fx1).store;
      Signup(after, second, crypto, fx2) == Step(after, Fail(409, "Username already exists"))
  {
  }

  /** Sign up, log in with the same body, present the token as
      `Bearer <token>`: the gate lets the request through with the new user's
      id, provided bcrypt and jwt behave and the token has not expired. */
  lemma SignupLoginAuthenticate(
    users: UserTable, body: Body, crypto: Bcrypt, fx: SignupEffects,
    sign: Signer, verify: Verifier, secret: Option<string>, lfx: LoginEffects, at: nat)
    requires Sound(crypto) && Agree(sign, verify, at) && at < lfx.now + TokenLifetime
    requires CreateUserSchema(body).Valid? && CreateUserSchema(body).data.username !in users
    requires fx.findFault.None? && fx.hashFault.None? && fx.createFault.None? && fx.newId != ""
    requires lfx.findFault.None? && lfx.compareFault.None?
    requires NonEmpty(secret)
    ensures var s := Signup(users, body, crypto, fx);
      && s.response.status == 201
      && var l := Login(s.store, body, crypto, sign, secret, lfx);
      && l.response.status == 200
      && Authenticate(Some(BearerPrefix + l.response.payload.token), secret, verify) == Next(Str(fx.newId))
  {
    var s := Signup(users, body, crypto, fx);
    var input := CreateUserSchema(body).data;
    LoginAcceptsWhatSignupAccepts(body);
    var digest := crypto.hash(input.password, fx.salt);
    assert s.store[input.username] == User(fx.newId, input.username, digest);
    assert digest != "" && crypto.compare(input.password, digest);
    var l := Login(s.store, body, crypto, sign, secret, lfx);
    assert l.response.payload.token == Sign(sign, fx.newId, secret, lfx.now).value;
    SignedTokenPassesGate(sign, verify, fx.newId, secret, lfx.now, at);
  }
}
