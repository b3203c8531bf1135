/**
  controllers/authController.js: register validates the body, refuses an
  email already present, then stores one user with a hashed password; login
  looks the user up by email, compares the password with the stored hash
  and signs an access token.
 */
module Auth {
  import opened Js
  import opened Fields
  import opened Store
  import opened Http
  import opened Credentials

  datatype RegisterBody = RegisterBody(name: Field<string>, email: Field<string>, password: Field<string>)

  datatype LoginBody = LoginBody(email: Field<string>, password: Field<string>)

  const EMAIL_EXISTS := "Email already exists."
  const REGISTERED := "User registered successfully."
  const CREDENTIALS_REQUIRED := "Email and password are required."
  const INVALID_CREDENTIALS := "Email or password is invalid."

  /** The required fields of register, in the order they are reported. */
  function RegisterChecks(b: RegisterBody): (c: seq<Check>)
    ensures |c| == 3 && c[0].name == "name" && c[1].name == "email" && c[2].name == "password"
    ensures AllTruthy(c) <==> RegisterFieldsGiven(b)
  {
    [ Check("name", TextTruthy(b.name)),
      Check("email", TextTruthy(b.email)),
      Check("password", TextTruthy(b.password)) ]
  }

  predicate RegisterFieldsGiven(b: RegisterBody) {
    TextTruthy(b.name) && TextTruthy(b.email) && TextTruthy(b.password)
  }

  /** The `missingFields` list register builds, one push per falsy field. */
  method RegisterMissingFields(b: RegisterBody) returns (missing: seq<string>)
    ensures missing == MissingNames(RegisterChecks(b))
  {
    ghost var c := RegisterChecks(b);
    missing := [];
    if !TextTruthy(b.name) { missing := missing + ["name"]; }
    ghost var m0 := missing;
    assert m0 == Reported(c[0]);
    if !TextTruthy(b.email) { missing := missing + ["email"]; }
    ghost var m1 := missing;
    assert m1 == m0 + Reported(c[1]);
    if !TextTruthy(b.password) { missing := missing + ["password"]; }
    assert missing == m1 + Reported(c[2]);
    MissingNamesOfThree(c);
  }

  /** `SELECT * FROM "user" WHERE email = $1`, as the keys of the rows it returns. */
  method UsersWithEmail(db: Db, email: string) returns (keys: seq<int>)
    requires db.Valid()
    ensures |keys| == 0 <==> !EmailTaken(db.users, email)
    ensures |keys| > 0 ==> keys[0] in db.users && db.users[keys[0]].email == email
  {
    keys := Select(db.users, (u: User) => u.email == email, db.nextUserId);
    if EmailTaken(db.users, email) {
      var k :| k in db.users && db.users[k].email == email;
      assert k in keys;
    }
  }

  /** The user registered under `email`; with unique emails there is only one. */
  ghost function UserWithEmail(users: map<int, User>, email: string): User
    requires EmailTaken(users, email)
  {
    var k :| k in users && users[k].email == email; users[k]
  }

  lemma UserWithEmailUnique(users: map<int, User>, email: string, k: int)
    requires UniqueEmails(users)
    requires k in users && users[k].email == email
    ensures EmailTaken(users, email) && UserWithEmail(users, email) == users[k]
  {
  }

  // ---------------------------------------------------------------------------
  // register

  /** The outcome of POST /api/auth/register on the user table as it was. */
  ghost function RegisterEffects(users: map<int, User>, b: RegisterBody, fault: Option<Fault>): seq<Effect> {
    if !RegisterFieldsGiven(b) then [Fail(422, RegisterMissingMessage(MissingNames(RegisterChecks(b))))]
    else if FailsAt(fault, 0) then [Unexpected(fault)]
    else if EmailTaken(users, b.email.value) then [Fail(409, EMAIL_EXISTS)]
    else if FailsAt(fault, 1) then [Unexpected(fault)]
    else [Respond(201, Message(REGISTERED))]
  }

  /** The row a successful register stores: the password only as its bcrypt hash. */
  function NewUser(id: int, b: RegisterBody, p: Primitives, salt: string): (u: User)
    requires RegisterFieldsGiven(b)
    ensures u.id == id && u.email == b.email.value
    ensures u.password == p.hash(b.password.value, SALT_ROUNDS, salt)
  {
    User(id, b.name.value, b.email.value, p.hash(b.password.value, SALT_ROUNDS, salt))
  }

  /** POST /api/auth/register: inserts exactly one user when every field is given and the email is unused. */
  method Register(db: Db, b: RegisterBody, p: Primitives, salt: string, fault: Option<Fault>)
    returns (effects: seq<Effect>)
    requires db.Valid()
    modifies db`users, db`nextUserId
    ensures db.Valid()
    ensures effects == RegisterEffects(old(db.users), b, fault)
    ensures effects[0].Respond? ==>
              && db.users == old(db.users)[old(db.nextUserId) := NewUser(old(db.nextUserId), b, p, salt)]
              && db.nextUserId == old(db.nextUserId) + 1
    ensures !effects[0].Respond? ==> db.users == old(db.users) && db.nextUserId == old(db.nextUserId)
  {
    if !TextTruthy(b.name) || !TextTruthy(b.email) || !TextTruthy(b.password) {
      var missing := RegisterMissingFields(b);
      return [Fail(422, RegisterMissingMessage(missing))];
    }
    if FailsAt(fault, 0) {
      return [Unexpected(fault)];
    }
    var emailExists := UsersWithEmail(db, b.email.value);
    if |emailExists| > 0 {
      return [Fail(409, EMAIL_EXISTS)];
    }
    var hashedPassword := p.hash(b.password.value, SALT_ROUNDS, salt);
    if FailsAt(fault, 1) {
      return [Unexpected(fault)];
    }
    var row := db.InsertUser(b.name.value, b.email.value, hashedPassword);
    effects := [Respond(201, Message(REGISTERED))];
  }

  // ---------------------------------------------------------------------------
  // login

  /** The response body of a successful login: the user's id, name and email, and the token. */
  function SessionOf(u: User, p: Primitives, secret: string): (body: Body)
    ensures body.Session? && body.id == u.id && body.name == u.name && body.email == u.email
    ensures body.accessToken == p.sign(AccessClaims(u.id), secret)
  {
    Session(u.id, u.name, u.email, p.sign(AccessClaims(u.id), secret))
  }

  /** The outcome of POST /api/auth/login on the user table. */
  ghost function LoginEffects(users: map<int, User>, b: LoginBody, p: Primitives, secret: string,
                              fault: Option<Fault>): seq<Effect>
  {
    if !TextTruthy(b.email) || !TextTruthy(b.password) then [Fail(422, CREDENTIALS_REQUIRED)]
    else if FailsAt(fault, 0) then [Unexpected(fault)]
    else if !EmailTaken(users, b.email.value) then [Fail(401, INVALID_CREDENTIALS)]
    else
      var user := UserWithEmail(users, b.email.value);
      if !p.compare(b.password.value, user.password) then [Fail(401, INVALID_CREDENTIALS)]
      else [Respond(200, SessionOf(user, p, secret))]
  }

  /** POST /api/auth/login: reads only. */
  method Login(db: Db, b: LoginBody, p: Primitives, secret: string, fault: Option<Fault>)
    returns (effects: seq<Effect>)
    requires db.Valid()
    ensures effects == LoginEffects(db.users, b, p, secret, fault)
  {
    if !TextTruthy(b.email) || !TextTruthy(b.password) {
      return [Fail(422, CREDENTIALS_REQUIRED)];
    }
    if FailsAt(fault, 0) {
      return [Unexpected(fault)];
    }
    var rows := UsersWithEmail(db, b.email.value);
    if |rows| == 0 {
      return [Fail(401, INVALID_CREDENTIALS)];
    }
    var user := db.users[rows[0]];
    UserWithEmailUnique(db.users, b.email.value, rows[0]);
    var passwordMatch := p.compare(b.password.value, user.password);
    if !passwordMatch {
      return [Fail(401, INVALID_CREDENTIALS)];
    }
    effects := [Respond(200, SessionOf(user, p, secret))];
  }

  // ---------------------------------------------------------------------------
  // Properties of register and login.

  /** register reports the missing fields in the order name, email, password, with a plural noun only for several. */
  lemma {:induction false} RegisterMissingReported(users: map<int, User>, b: RegisterBody, fault: Option<Fault>)
    requires !RegisterFieldsGiven(b)
    ensures var missing := MissingNames(RegisterChecks(b));
            && 1 <= |missing| <= 3
            && (|missing| == 1 ==> RegisterEffects(users, b, fault) == [Fail(422, "Missing field: " + missing[0])])
            && (|missing| > 1 ==> RegisterEffects(users, b, fault) == [Fail(422, "Missing fields: " + Join(missing, ", "))])
  {
    var missing := MissingNames(RegisterChecks(b));
    var c := RegisterChecks(b);
    assert !c[0].truthy || !c[1].truthy || !c[2].truthy;
    MissingNamesEmpty(RegisterChecks(b));
    MissingNamesBound(RegisterChecks(b));
    MissingMessagesAgree(missing);
    SingularIffOne(missing);
  }

  /** Registering an email a second time, after it was stored, answers 409. */
  lemma {:induction false} RegisterTwiceConflicts(users: map<int, User>, next: int, first: RegisterBody, second: RegisterBody,
                                                  p: Primitives, salt: string, fault: Option<Fault>)
    requires RegisterFieldsGiven(first) && RegisterFieldsGiven(second)
    requires second.email.value == first.email.value && !FailsAt(fault, 0)
    ensures RegisterEffects(users[next := NewUser(next, first, p, salt)], second, fault) == [Fail(409, EMAIL_EXISTS)]
  {
    var after := users[next := NewUser(next, first, p, salt)];
    assert next in after && after[next].email == second.email.value;
  }

  /**
    With every field given and the store answering, login succeeds exactly
    when the email is registered and the password matches its hash; an
    unknown email and a wrong password give the same 401.
   */
  lemma LoginOutcome(users: map<int, User>, b: LoginBody, p: Primitives, secret: string)
    requires TextTruthy(b.email) && TextTruthy(b.password)
    ensures var effects := LoginEffects(users, b, p, secret, None);
            && (effects[0].Respond? <==>
                  EmailTaken(users, b.email.value)
                  && p.compare(b.password.value, UserWithEmail(users, b.email.value).password))
            && (!effects[0].Respond? ==> effects == [Fail(401, INVALID_CREDENTIALS)])
  {
  }

  /** A successful login never returns the stored password: its body holds only id, name, email and the token. */
  lemma LoginBodyHasNoPassword(users: map<int, User>, b: LoginBody, p: Primitives, secret: string, fault: Option<Fault>)
    requires LoginEffects(users, b, p, secret, fault)[0].Respond?
    ensures var effects := LoginEffects(users, b, p, secret, fault);
            && effects[0].status == 200 && effects[0].body.Session?
            && EmailTaken(users, b.email.value)
            && var user := UserWithEmail(users, b.email.value);
               effects[0].body == Session(user.id, user.name, user.email, p.sign(AccessClaims(user.id), secret))
  {
  }

  /**
    A user who has just registered can log in with the same email and
    password, provided bcrypt accepts the password against the hash stored
    for it; the session is the new user's.
   */
  lemma {:induction false} RegisterThenLogin(users: map<int, User>, next: int, b: RegisterBody,
                                             p: Primitives, salt: string, secret: string)
    requires UsersKeyed(users, next) && UniqueEmails(users)
    requires RegisterFieldsGiven(b) && !EmailTaken(users, b.email.value)
    requires p.compare(b.password.value, p.hash(b.password.value, SALT_ROUNDS, salt))
    ensures RegisterEffects(users, b, None) == [Respond(201, Message(REGISTERED))]
    ensures var after := users[next := NewUser(next, b, p, salt)];
            LoginEffects(after, LoginBody(b.email, b.password), p, secret, None)
            == [Respond(200, SessionOf(NewUser(next, b, p, salt), p, secret))]
  {
    var after := users[next := NewUser(next, b, p, salt)];
    assert next !in users;
    forall x, y | x in after && y in after && x != y
      ensures after[x].email != after[y].email
    {
      if x == next {
        assert !(y in users && users[y].email == b.email.value);
      } else if y == next {
        assert !(x in users && users[x].email == b.email.value);
      }
    }
    UserWithEmailUnique(after, b.email.value, next);
  }
}
