/**
 * The register and login handlers over the users collection. The collection
 * is a map from stored email to user document; bcrypt, the JWT signer and the
 * `JWT_SECRET` environment variable are fixed parameters of the service.
 */
module AuthController {
  import opened Options
  import opened Text
  import opened UserModel

  /** `req.body`'s fields; `None` for an absent field or body. */
  datatype RegisterBody = RegisterBody(name: Option<string>, email: Option<string>, password: Option<string>)
  datatype LoginBody = LoginBody(email: Option<string>, password: Option<string>)

  /** The JWT payload. */
  datatype Claims = Claims(sub: string, email: string, name: string)

  datatype Reply =
    | Failure(message: string)
    | Registered(message: string)
    | LoggedIn(message: string, jwtToken: string, email: string, name: string)

  datatype Response = Response(status: int, reply: Reply)

  const TokenLifetime := "28d"

  const MissingRegisterFields := Response(400, Failure("Name, email, and password are required"))
  const UserExists := Response(400, Failure("User already exists"))
  const ServerError := Response(500, Failure("Server error"))
  const RegisteredOk := Response(201, Registered("User registered successfully"))
  const MissingLoginFields := Response(400, Failure("Email and password are required"))
  const InvalidCredentials := Response(401, Failure("Invalid credentials"))
  const LoginMessage := "User logged in successfully"

  /** `!v` for a string-or-undefined field. */
  predicate Falsy(v: Option<string>) {
    v.None? || v.value == ""
  }

  /** Every document is filed under its own email. */
  predicate TableValid(users: map<string, User>) {
    forall e :: e in users ==> users[e].email == e
  }

  class AuthService {
    /** The users collection, keyed by the stored (normalised) email. */
    var users: map<string, User>
    /** `bcrypt.hash(password, 10)`, with its salt fixed. */
    const hash: string -> string
    /** `bcrypt.compare(plain, hashed)`. */
    const compare: (string, string) -> bool
    /** `jwt.sign(claims, secret, {expiresIn})`. */
    const sign: (Claims, string, string) -> string
    /** `process.env.JWT_SECRET`. */
    const secret: Option<string>

    constructor (users: map<string, User>, hash: string -> string, compare: (string, string) -> bool,
                 sign: (Claims, string, string) -> string, secret: Option<string>)
      requires TableValid(users)
      ensures Inv()
      ensures this.users == users && this.hash == hash && this.compare == compare
      ensures this.sign == sign && this.secret == secret
    {
      this.users := users;
      this.hash := hash;
      this.compare := compare;
      this.sign := sign;
      this.secret := secret;
    }

    /** The service invariant: `findOne({ email })` finds the document filed under
        that email, and only that one. */
    predicate Inv()
      reads this
    {
      TableValid(users)
    }

    /** The document `register` saves for a body with all three fields. */
    function Candidate(body: RegisterBody, id: string): (u: User)
      requires body.name.Some? && body.email.Some? && body.password.Some?
      ensures u.id == id && u.password == hash(body.password.value)
      ensures u.email == NormalizeEmail(body.email.value) && u.name == Trim(body.name.value)
    {
      Cast(id, body.name.value, body.email.value, hash(body.password.value))
    }

    /**
     * `register`: 400 when a field is missing or empty; 400 when a document
     * already has the normalised email; 500 when the saved document fails a
     * schema validator; otherwise the document is inserted under its email and
     * the reply is 201. Only the success path changes the collection, and it
     * keeps every document filed under its own email.
     */
    method Register(body: RegisterBody, newId: string) returns (response: Response)
      requires Inv()
      modifies this
      ensures Inv()
      ensures Falsy(body.name) || Falsy(body.email) || Falsy(body.password) ==>
        response == MissingRegisterFields && users == old(users)
      ensures !Falsy(body.name) && !Falsy(body.email) && !Falsy(body.password) ==>
        var u := Candidate(body, newId);
        && (u.email in old(users) ==> response == UserExists && users == old(users))
        && (u.email !in old(users) && !Valid(u) ==> response == ServerError && users == old(users))
        && (u.email !in old(users) && Valid(u) ==> response == RegisteredOk && users == old(users)[u.email := u])
      ensures forall e :: e in old(users) ==> e in users && users[e] == old(users)[e]
    {
      if Falsy(body.name) || Falsy(body.email) || Falsy(body.password) {
        return MissingRegisterFields;
      }
      var key := NormalizeEmail(body.email.value);
      if key in users {
        return UserExists;
      }
      var u := Candidate(body, newId);
      if !Valid(u) {
        return ServerError;
      }
      users := users[u.email := u];
      response := RegisteredOk;
    }

    /**
     * `login`: 400 when a field is missing or empty; 401 for an unknown email
     * or a wrong password, with the same reply in both cases; 500 for a
     * document without a password or a missing secret; otherwise 200 with a
     * 28-day token over the document's id, email and name, and that email and
     * name.
     */
    method Login(body: LoginBody) returns (response: Response)
      requires Inv()
      ensures Falsy(body.email) || Falsy(body.password) ==> response == MissingLoginFields
      ensures !Falsy(body.email) && !Falsy(body.password) ==>
        var key := NormalizeEmail(body.email.value);
        && (key !in users ==> response == InvalidCredentials)
        && (key in users && users[key].password == "" ==> response == ServerError)
        && (key in users && users[key].password != "" && !compare(body.password.value, users[key].password) ==>
              response == InvalidCredentials)
        && (key in users && users[key].password != "" && compare(body.password.value, users[key].password) ==>
              var u := users[key];
              && (Falsy(secret) ==> response == ServerError)
              && (!Falsy(secret) ==>
                    response == Response(200, LoggedIn(LoginMessage, sign(Claims(u.id, u.email, u.name), secret.value, TokenLifetime),
                                                       u.email, u.name)))
                 && (!Falsy(secret) ==> u.email == key))
    {
      if Falsy(body.email) || Falsy(body.password) {
        return MissingLoginFields;
      }
      var key := NormalizeEmail(body.email.value);
      if key !in users {
        return InvalidCredentials;
      }
      var u := users[key];
      if u.password == "" {
        return ServerError;
      }
      if !compare(body.password.value, u.password) {
        return InvalidCredentials;
      }
      if Falsy(secret) {
        return ServerError;
      }
      var token := sign(Claims(u.id, u.email, u.name), secret.value, TokenLifetime);
      response := Response(200, LoggedIn(LoginMessage, token, u.email, u.name));
    }
  }

  /**
   * A user who registered can log in with the same email and password, in any
   * case and with surrounding whitespace, as long as bcrypt accepts its own
   * hash and the secret is set; the reply carries the stored email and name.
   */
  method RegisterThenLogin(service: AuthService, name: string, email: string, password: string,
                           newId: string, loginEmail: string)
      returns (registered: Response, loggedIn: Response)
    requires service.compare(password, service.hash(password))
    requires !Falsy(service.secret)
    requires service.Inv()
    requires NormalizeEmail(loginEmail) == NormalizeEmail(email) && loginEmail != ""
    modifies service
    ensures registered == RegisteredOk ==>
      && loggedIn.status == 200
      && loggedIn.reply.LoggedIn?
      && loggedIn.reply.email == NormalizeEmail(email)
      && loggedIn.reply.name == Trim(name)
  {
    registered := service.Register(RegisterBody(Some(name), Some(email), Some(password)), newId);
    loggedIn := service.Login(LoginBody(Some(loginEmail), Some(password)));
  }

  /** `unique: true`: in a table filed by email no two documents share an email. */
  lemma EmailsUnique(users: map<string, User>, e1: string, e2: string)
    requires TableValid(users) && e1 in users && e2 in users
    ensures users[e1].email == users[e2].email <==> e1 == e2
  {
  }

  /**
   * The schema's validators see the saved document: a registration passes them
   * iff the trimmed name has 2 to 64 characters, the normalised email matches
   * the pattern, and the password's hash, not the password, has at least 6.
   */
  lemma ValidatorsSeeHash(service: AuthService, body: RegisterBody, id: string)
    requires body.name.Some? && body.email.Some? && body.password.Some?
    ensures Valid(service.Candidate(body, id)) <==>
      && NameMinLength <= |Trim(body.name.value)| <= NameMaxLength
      && ValidEmail(NormalizeEmail(body.email.value))
      && PasswordMinLength <= |service.hash(body.password.value)|
  {
  }

  /** So a plaintext shorter than the minimum passes the validators when its hash
      is long enough; `register` then answers 201 for an email not yet taken. */
  lemma ShortPasswordAccepted(service: AuthService, body: RegisterBody, id: string)
    requires body.name.Some? && body.email.Some? && body.password.Some?
    requires |body.password.value| < PasswordMinLength <= |service.hash(body.password.value)|
    requires NameMinLength <= |Trim(body.name.value)| <= NameMaxLength
    requires ValidEmail(NormalizeEmail(body.email.value))
    ensures Valid(service.Candidate(body, id))
  {
    ValidatorsSeeHash(service, body, id);
  }
}
