/** The account handlers: `registerUser`, `loginUser` and `adminLogin` are ladders of checks,
    each answering `success: false` with its own message, or a signed token. */
module UserController {
  import opened Wrappers
  import opened JsObject
  import opened UserStore
  import opened MongoErrors

  /** The environment the handlers read: `ADMIN_EMAIL`, `ADMIN_PASSWORD`, `JWT_SECRET`. */
  datatype Config = Config(adminEmail: Option<string>, adminPassword: Option<string>, jwtSecret: Option<string>)

  /** What is signed into a token: `{ id }` for users, and for the admin the value of
      `email + password`, which is a text, or `NaN` when both request fields are missing. */
  datatype Claim = IdClaim(id: UserId) | TextClaim(text: string) | NotANumber

  /** A request body field as `+` turns it into text: its value, or "undefined" when missing. */
  function FieldText(x: Option<string>): string {
    if x.Some? then x.value else "undefined"
  }

  /** `email + password` on two request body fields: the texts joined, except that two
      missing fields add up to `NaN`. */
  function Concatenated(email: Option<string>, password: Option<string>): (r: Claim)
    ensures r == NotANumber <==> email.None? && password.None?
    ensures email.Some? && password.Some? ==> r == TextClaim(email.value + password.value)
    ensures email.None? && password.Some? ==> r == TextClaim("undefined" + password.value)
    ensures email.Some? && password.None? ==> r == TextClaim(email.value + "undefined")
  {
    if email.None? && password.None? then NotANumber
    else TextClaim(FieldText(email) + FieldText(password))
  }

  /** The library calls the handlers make: `validator.isEmail`, `bcrypt.hash`, `bcrypt.compare`
      and `jwt.sign`, given as functions. */
  datatype Crypto = Crypto(
    isEmail: string -> bool,
    hash: (string, string) -> string,
    compare: (string, string) -> bool,
    sign: (Claim, string) -> string)

  const MissingSecretMessage := "secretOrPrivateKey must have a value"
  const UserExistsMessage := "User already exists"
  const InvalidEmailMessage := "Please enter a valid email"
  const WeakPasswordMessage := "Please enter a strong password"
  const NoSuchUserMessage := "User doesn't exist"
  const InvalidCredentialsMessage := "Invalid credentials"

  /** The shortest password `registerUser` accepts. */
  const MinPasswordLength := 8

  /** `JWT_SECRET` holds a usable key: `jwt.sign` refuses a missing or empty one. */
  predicate HasSecret(config: Config) {
    config.jwtSecret.Some? && config.jwtSecret.value != ""
  }

  /** `jwt.sign(claim, process.env.JWT_SECRET)`: signing without a secret, or with the empty
      one, throws. */
  function Sign(claim: Claim, config: Config, crypto: Crypto): (r: Result<string>)
    ensures r.Err? <==> config.jwtSecret.None? || config.jwtSecret.value == ""
    ensures r.Err? ==> r.message == MissingSecretMessage
    ensures r.Ok? ==> r.value == crypto.sign(claim, config.jwtSecret.value)
  {
    match config.jwtSecret
    case None => Err(MissingSecretMessage)
    case Some(secret) => if secret == "" then Err(MissingSecretMessage) else Ok(crypto.sign(claim, secret))
  }

  function AsReply(r: Result<string>): Reply<string> {
    match r
    case Ok(token) => Success(token)
    case Err(m) => Failure(m)
  }

  /** `loginUser`: an unknown email, then a password that does not match the stored hash,
      are refused in that order; otherwise the token for the user's id. */
  function LoginUser(docs: seq<User>, email: string, password: string, config: Config, crypto: Crypto,
                     dbFault: Option<string>): (r: Reply<string>)
    ensures dbFault.Some? ==> r == Failure(dbFault.value)
    ensures dbFault.None? && IndexByEmail(docs, email).None? ==> r == Failure(NoSuchUserMessage)
    ensures dbFault.None? && IndexByEmail(docs, email).Some? ==>
      var user := docs[IndexByEmail(docs, email).value];
      && (!crypto.compare(password, user.password) ==> r == Failure(InvalidCredentialsMessage))
      && (crypto.compare(password, user.password) ==> r == AsReply(Sign(IdClaim(user.id), config, crypto)))
    ensures r.Success? ==> exists j :: 0 <= j < |docs| && docs[j].email == email
                                       && crypto.compare(password, docs[j].password) && r.body == crypto.sign(IdClaim(docs[j].id), config.jwtSecret.value)
  {
    if dbFault.Some? then Failure(dbFault.value)
    else match IndexByEmail(docs, email)
      case None => Failure(NoSuchUserMessage)
      case Some(k) =>
        if crypto.compare(password, docs[k].password) then AsReply(Sign(IdClaim(docs[k].id), config, crypto))
        else Failure(InvalidCredentialsMessage)
  }

  /** `adminLogin`: the request fields are compared with `===` against the environment, where
      a missing field and an unset variable are both `undefined`. It succeeds exactly when both
      compare equal and a secret is set, and signs `email + password`. */
  function AdminLogin(email: Option<string>, password: Option<string>, config: Config, crypto: Crypto)
    : (r: Reply<string>)
    ensures r.Success? <==> email == config.adminEmail && password == config.adminPassword && HasSecret(config)
    ensures r.Success? ==> r.body == crypto.sign(Concatenated(email, password), config.jwtSecret.value)
    ensures !(email == config.adminEmail && password == config.adminPassword) ==>
      r == Failure(InvalidCredentialsMessage)
    ensures email == config.adminEmail && password == config.adminPassword && !HasSecret(config) ==>
      r == Failure(MissingSecretMessage)
  {
    if email == config.adminEmail && password == config.adminPassword then
      AsReply(Sign(Concatenated(email, password), config, crypto))
    else Failure(InvalidCredentialsMessage)
  }

  /** With `ADMIN_EMAIL` and `ADMIN_PASSWORD` both unset, a request that sends neither field
      passes the comparison, and the reply carries the token signed over `NaN`. */
  lemma UnsetAdminAcceptsEmptyRequest(config: Config, crypto: Crypto)
    requires config.adminEmail.None? && config.adminPassword.None? && HasSecret(config)
    ensures AdminLogin(None, None, config, crypto) == Success(crypto.sign(NotANumber, config.jwtSecret.value))
  {
  }

  /** The document `registerUser` saves: the hash of the password, never the password, and an
      empty cart. */
  function NewUser(id: UserId, name: string, email: string, password: string, salt: string, crypto: Crypto): (u: User)
    ensures u.id == id && u.name == name && u.email == email
    ensures u.password == crypto.hash(password, salt) && u.cartData == Empty()
  {
    User(id, name, email, crypto.hash(password, salt), Empty())
  }

  /** V8's message when `password.length` is read and the request body has no `password`. */
  const MissingPasswordMessage := "Cannot read properties of undefined (reading 'length')"

  /** `registerUser`. A taken email is refused first, then an address that is not an email,
      then a missing password (reading its length throws), then a password shorter than eight
      characters. Only then is the user saved with the hashed password, and a token for the
      new id is returned. `salt` stands for `bcrypt.genSalt(10)`, `newId` for the id the store
      assigns, and `dbFault` for a database call that throws. */
  method RegisterUser(db: UserCollection, name: string, email: string, password: Option<string>, salt: string,
                      newId: UserId, config: Config, crypto: Crypto, dbFault: Option<string>)
    returns (reply: Reply<string>)
    requires db.Valid()
    modifies db
    ensures db.Valid()
    ensures dbFault.Some? ==> reply == Failure(dbFault.value) && db.docs == old(db.docs)
    ensures dbFault.None? && old(db.FindOne(email)).Some? ==>
      reply == Failure(UserExistsMessage) && db.docs == old(db.docs)
    ensures dbFault.None? && old(db.FindOne(email)).None? && !crypto.isEmail(email) ==>
      reply == Failure(InvalidEmailMessage) && db.docs == old(db.docs)
    ensures dbFault.None? && old(db.FindOne(email)).None? && crypto.isEmail(email) && password.None? ==>
      reply == Failure(MissingPasswordMessage) && db.docs == old(db.docs)
    ensures (&& dbFault.None? && old(db.FindOne(email)).None? && crypto.isEmail(email)
             && password.Some? && |password.value| < MinPasswordLength) ==>
      reply == Failure(WeakPasswordMessage) && db.docs == old(db.docs)
    ensures (&& dbFault.None? && old(db.FindOne(email)).None? && crypto.isEmail(email)
             && password.Some? && |password.value| >= MinPasswordLength && old(db.FindById(newId)).Some?) ==>
      reply == Failure(DuplicateKeyMessage) && db.docs == old(db.docs)
    ensures (&& dbFault.None? && old(db.FindOne(email)).None? && crypto.isEmail(email)
             && password.Some? && |password.value| >= MinPasswordLength && old(db.FindById(newId)).None?) ==>
      && db.docs == old(db.docs) + [NewUser(newId, name, email, password.value, salt, crypto)]
      && reply == AsReply(Sign(IdClaim(newId), config, crypto))
    ensures reply.Success? ==>
      password.Some? && db.docs == old(db.docs) + [NewUser(newId, name, email, password.value, salt, crypto)]
  {
    if dbFault.Some? {
      return Failure(dbFault.value);
    }
    if db.FindOne(email).Some? {
      return Failure(UserExistsMessage);
    }
    if !crypto.isEmail(email) {
      return Failure(InvalidEmailMessage);
    }
    if password.None? {
      return Failure(MissingPasswordMessage);
    }
    if |password.value| < MinPasswordLength {
      return Failure(WeakPasswordMessage);
    }
    var hashedPassword := crypto.hash(password.value, salt);
    var saved := db.Insert(User(newId, name, email, hashedPassword, Empty()));
    if saved.Err? {
      return Failure(saved.message);
    }
    reply := AsReply(Sign(IdClaim(saved.value.id), config, crypto));
  }

  /** A lookup by email in documents that gained one user with a new email finds that user. */
  lemma IndexByEmailAppended(docs: seq<User>, u: User)
    requires IndexByEmail(docs, u.email).None?
    ensures IndexByEmail(docs + [u], u.email) == Some(|docs|)
  {
    assert (docs + [u])[|docs|].email == u.email;
    assert forall j :: 0 <= j < |docs| ==> (docs + [u])[j] == docs[j];
  }

  /** Registering and then logging in with the same email and password yields the same token,
      provided `bcrypt.compare` accepts a password against its own hash. */
  lemma LoginAfterRegister(docs: seq<User>, name: string, email: string, password: string, salt: string,
                           newId: UserId, config: Config, crypto: Crypto)
    requires IndexByEmail(docs, email).None?
    requires crypto.compare(password, crypto.hash(password, salt))
    ensures LoginUser(docs + [NewUser(newId, name, email, password, salt, crypto)], email, password, config, crypto, None)
      == AsReply(Sign(IdClaim(newId), config, crypto))
  {
    IndexByEmailAppended(docs, NewUser(newId, name, email, password, salt, crypto));
  }
}
