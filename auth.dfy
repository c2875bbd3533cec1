/** authController.js: `registerUser`, `loginUser` and `logoutUser`.
    bcrypt and jsonwebtoken are not part of this model: hashing, comparing
    and signing are functions the handlers are given. */
module AuthController {
  import opened Common
  import opened Text
  import opened Schema
  import opened Patterns
  import opened Database

  const UserExists := "User already exists"
  const InvalidCredentials := "Invalid credentials"
  const LoggedOut := "Successfully logged out"

  /** `expiresIn: "30d"`. */
  const TokenLifetimeDays := 30

  /** The length of a bcrypt hash string. */
  const BcryptHashLength := 60

  /** `bcrypt.hash(password, salt)`, `bcrypt.compare(password, hash)` and
      `jwt.sign({ id }, secret, { expiresIn })` with the secret fixed. */
  datatype Crypto = Crypto(
    hash: (string, string) -> string,
    compare: (string, string) -> bool,
    sign: (Id, nat) -> string)

  /** What the model relies on: a password matches every hash made from
      it, and every hash is a bcrypt string of 60 characters. */
  ghost predicate CryptoOk(c: Crypto) {
    && (forall p, s :: c.compare(p, c.hash(p, s)))
    && (forall p, s :: |c.hash(p, s)| == BcryptHashLength)
  }

  /** The `user` object of the registration response: it has no password. */
  datatype PublicUser = PublicUser(id: Id, name: string, email: string, pictureUrl: Option<string>, createdAt: Time)

  datatype Registration = Registration(user: PublicUser, token: string)

  datatype LoginView = LoginView(id: Id, name: string, email: string, token: string)

  /** `User.findOne({ email })` finds a user. Mongoose casts the filter
      through the path's setters, so the match is on the trimmed,
      lower-cased email. */
  predicate EmailTaken(users: map<Id, User>, email: string) {
    exists id :: id in users && users[id].email == CastEmail(email)
  }

  /** `profile_picture_url || null`: an empty string counts as absent. */
  function PictureOrNull(url: string): (v: Option<string>)
    ensures v.None? <==> url == ""
    ensures v.Some? ==> v.value == url
  {
    if url == "" then None else Some(url)
  }

  /** The document `registerUser` hands to `User.create`, as the schema's
      setters turn it: the stored password is the hash. */
  function RegisteredDocument(crypto: Crypto, name: string, email: string, password: string,
                              pictureUrl: string, salt: string, now: Time): (u: User)
    ensures u.password == crypto.hash(password, salt)
    ensures u.name == Trim(name) && u.email == LowerAscii(Trim(email)) && u.email == CastEmail(email)
    ensures u.pictureUrl == if pictureUrl == "" then None else Some(Trim(pictureUrl))
    ensures u.createdAt == now && u.updatedAt == now
  {
    NewUserDocument(name, email, crypto.hash(password, salt), PictureOrNull(pictureUrl), now)
  }

  /** `registerUser`. `salt` is what `bcrypt.genSalt(10)` returned. The
      lookup and the stored document use the same cast email, so the
      unique index never fires after the lookup found nothing; a document
      the schema rejects makes `User.create` throw: 500. */
  method RegisterUser(db: Store, crypto: Crypto, name: string, email: string, password: string,
                      pictureUrl: string, salt: string, now: Time) returns (r: Response<Registration>)
    requires db.Valid() && UsersStored(db.users)
    modifies db
    ensures db.Valid() && UsersStored(db.users)
    ensures EmailTaken(old(db.users), email) ==> r == Fail(Conflict, UserExists) && unchanged(db)
    ensures !EmailTaken(old(db.users), email) ==>
      var doc := RegisteredDocument(crypto, name, email, password, pictureUrl, salt, now);
      && (!UserValid(doc) ==> r == ServerError() && unchanged(db))
      && (UserValid(doc) ==>
            && r.status == Created && r.message.None? && r.payload.Some?
            && var id := r.payload.value.user.id;
            && id !in old(db.users)
            && db.users == old(db.users)[id := doc]
            && r.payload.value == Registration(PublicUser(id, doc.name, doc.email, doc.pictureUrl, now),
                                               crypto.sign(id, TokenLifetimeDays))
            && db.posts == old(db.posts) && db.comments == old(db.comments) && db.reactions == old(db.reactions))
  {
    if exists id :: id in db.users && db.users[id].email == CastEmail(email) {
      return Fail(Conflict, UserExists);
    }
    var hashed := crypto.hash(password, salt);
    var doc := NewUserDocument(name, email, hashed, PictureOrNull(pictureUrl), now);
    if !UserValid(doc) {
      return ServerError();
    }
    CreatedUserIsStored(name, email, hashed, PictureOrNull(pictureUrl), now);
    ghost var before := db.users;
    var id := db.InsertUser(doc);
    InsertUserStored(before, id, doc);
    var token := crypto.sign(id, TokenLifetimeDays);
    r := Response(Created, None, Some(Registration(PublicUser(id, doc.name, doc.email, doc.pictureUrl, doc.createdAt), token)));
  }

  /** With a well-behaved bcrypt the stored hash is long enough for the
      schema's `minlength`, and it is never a plaintext password of any
      other length. */
  lemma StoredHashFitsSchema(crypto: Crypto, name: string, email: string, password: string,
                             pictureUrl: string, salt: string, now: Time)
    requires CryptoOk(crypto)
    ensures var doc := RegisteredDocument(crypto, name, email, password, pictureUrl, salt, now);
            && Utf16Length(doc.password) >= PasswordMinLength
            && (|password| != BcryptHashLength ==> doc.password != password)
  {
    assert |crypto.hash(password, salt)| == BcryptHashLength;
  }

  /** What decides whether `User.create` accepts a registration: the
      trimmed name is present and at most 255 long, the trimmed email
      matches the pattern (lower-casing does not change that), and a
      non-empty picture URL is blank or an image URL once trimmed. */
  lemma RegistrationSchemaIff(crypto: Crypto, name: string, email: string, password: string,
                              pictureUrl: string, salt: string, now: Time)
    requires CryptoOk(crypto)
    ensures UserValid(RegisteredDocument(crypto, name, email, password, pictureUrl, salt, now)) <==>
      && Trim(name) != "" && Utf16Length(Trim(name)) <= NameMaxLength
      && EmailPattern(Trim(email))
      && (pictureUrl == "" || Trim(pictureUrl) == "" || PictureUrlPattern(Trim(pictureUrl)))
  {
    StoredHashFitsSchema(crypto, name, email, password, pictureUrl, salt, now);
    EmailPatternIgnoresCase(Trim(email));
    var doc := RegisteredDocument(crypto, name, email, password, pictureUrl, salt, now);
    assert EmailPattern(Trim(email)) ==> doc.email != "";
    assert pictureUrl != "" ==> doc.pictureUrl == Some(Trim(pictureUrl));
  }

  /** `loginUser`: find the user by the cast email, then compare the
      password with the stored hash. Both failures send the same answer. */
  function LoginUser(users: map<Id, User>, crypto: Crypto, email: string, password: string): (r: Response<LoginView>)
    requires EmailsUnique(users)
    ensures !EmailTaken(users, email) ==> r == Fail(BadRequest, InvalidCredentials)
    ensures forall id :: id in users && users[id].email == CastEmail(email) ==>
      if crypto.compare(password, users[id].password)
      then r == Response(Ok, None, Some(LoginView(id, users[id].name, users[id].email, crypto.sign(id, TokenLifetimeDays))))
      else r == Fail(BadRequest, InvalidCredentials)
  {
    if !EmailTaken(users, email) then Fail(BadRequest, InvalidCredentials)
    else
      var id :| id in users && users[id].email == CastEmail(email);
      if !crypto.compare(password, users[id].password) then Fail(BadRequest, InvalidCredentials)
      else Response(Ok, None, Some(LoginView(id, users[id].name, users[id].email, crypto.sign(id, TokenLifetimeDays))))
  }

  /** A failed login says nothing about why it failed: any two failures
      are the same response. */
  lemma LoginFailureIsUniform(users: map<Id, User>, crypto: Crypto, e1: string, p1: string, e2: string, p2: string)
    requires EmailsUnique(users)
    requires LoginUser(users, crypto, e1, p1).status != Ok && LoginUser(users, crypto, e2, p2).status != Ok
    ensures LoginUser(users, crypto, e1, p1) == LoginUser(users, crypto, e2, p2) == Fail(BadRequest, InvalidCredentials)
  {
    LoginFails(users, crypto, e1, p1);
    LoginFails(users, crypto, e2, p2);
  }

  lemma LoginFails(users: map<Id, User>, crypto: Crypto, email: string, password: string)
    requires EmailsUnique(users) && LoginUser(users, crypto, email, password).status != Ok
    ensures LoginUser(users, crypto, email, password) == Fail(BadRequest, InvalidCredentials)
  {
    if EmailTaken(users, email) {
      var id :| id in users && users[id].email == CastEmail(email);
    }
  }

  /** A user logs in with the password they registered with, under any
      spelling of their email that casts to the stored one. */
  lemma LoginWithRegisteredPassword(users: map<Id, User>, crypto: Crypto, id: Id, email: string, password: string, salt: string)
    requires EmailsUnique(users) && CryptoOk(crypto)
    requires id in users && users[id].password == crypto.hash(password, salt)
    requires CastEmail(email) == users[id].email
    ensures LoginUser(users, crypto, email, password)
            == Response(Ok, None, Some(LoginView(id, users[id].name, users[id].email, crypto.sign(id, TokenLifetimeDays))))
  {
    assert crypto.compare(password, crypto.hash(password, salt));
  }

  /** `logoutUser`: tokens are not tracked, so there is nothing to revoke. */
  function LogoutUser(): (r: Response<()>)
    ensures r.status == Ok && r.message == Some(LoggedOut) && r.payload.None?
  {
    Response(Ok, Some(LoggedOut), None)
  }
}
