/** The Mongoose schemas of userModel.js, postModel.js, reactionModel.js and
    the comment record the controllers use: the documents, what the
    schemas' setters do to a new document, and what their validators
    demand. References between documents and the unique indexes are
    properties of the whole store (module Database). */
module Schema {
  import opened Common
  import opened Text
  import opened Patterns

  const NameMaxLength := 255
  const PasswordMinLength := 8

  /** A user document; `password` holds the stored credential, which the
      schema hides from default reads (`select: false`). */
  datatype User = User(
    name: string,
    email: string,
    password: string,
    pictureUrl: Option<string>,
    createdAt: Time,
    updatedAt: Time)

  /** The custom validator of `profile_picture_url`: a falsy value passes,
      anything else must be an http(s) URL of an image file. */
  predicate ValidPictureUrl(v: Option<string>) {
    v.None? || v.value == "" || PictureUrlPattern(v.value)
  }

  /** The `trim` and `lowercase` setters of the `email` path. Mongoose
      runs them on a new document and also when it casts a query filter
      on `email`, so `User.findOne({ email })` looks for `CastEmail(email)`. */
  function CastEmail(email: string): (e: string)
    ensures IsTrimmed(e) && NoUpperAscii(e)
  {
    var t := Trim(email);
    LowerAsciiKeepsTrimmed(t);
    LowerAsciiHasNoUpper(t);
    LowerAscii(t)
  }

  /** A cast email casts to itself: the form stored in a document is the
      key every spelling of it is looked up by. */
  lemma CastEmailIdempotent(email: string)
    ensures CastEmail(CastEmail(email)) == CastEmail(email)
  {
    var e := CastEmail(email);
    TrimOfTrimmed(e);
    LowerAsciiIdempotent(Trim(email));
  }

  /** `User.create({...})` before validation: the `trim` setters on name,
      email and picture URL, the `lowercase` setter on email, and both
      timestamps set to the creation time. */
  function NewUserDocument(name: string, email: string, password: string, pictureUrl: Option<string>, now: Time): (u: User)
    ensures u.name == Trim(name) && u.email == LowerAscii(Trim(email)) && u.email == CastEmail(email)
    ensures IsTrimmed(u.name) && IsTrimmed(u.email) && NoUpperAscii(u.email)
    ensures u.pictureUrl == if pictureUrl.Some? then Some(Trim(pictureUrl.value)) else None
    ensures u.pictureUrl.Some? ==> IsTrimmed(u.pictureUrl.value)
    ensures u.password == password && u.createdAt == now && u.updatedAt == now
  {
    User(Trim(name), CastEmail(email), password,
         if pictureUrl.Some? then Some(Trim(pictureUrl.value)) else None,
         now, now)
  }

  /** The validators of the user schema: `required` on name, email and
      password, `maxlength` 255 on name, the email `match`, `minlength` 8
      on password, and the picture URL validator. Lengths are JavaScript
      lengths. */
  predicate UserValid(u: User) {
    && u.name != "" && Utf16Length(u.name) <= NameMaxLength
    && u.email != "" && EmailPattern(u.email)
    && u.password != "" && Utf16Length(u.password) >= PasswordMinLength
    && ValidPictureUrl(u.pictureUrl)
  }

  /** What a user document in the collection satisfies: it passed the
      validators and is in the form the setters produce. */
  predicate UserStored(u: User) {
    && UserValid(u)
    && IsTrimmed(u.name) && IsTrimmed(u.email) && NoUpperAscii(u.email)
    && (u.pictureUrl.Some? ==> IsTrimmed(u.pictureUrl.value))
  }

  /** A document `User.create` accepts is stored as it is. */
  lemma CreatedUserIsStored(name: string, email: string, password: string, pictureUrl: Option<string>, now: Time)
    requires UserValid(NewUserDocument(name, email, password, pictureUrl, now))
    ensures UserStored(NewUserDocument(name, email, password, pictureUrl, now))
  {
  }

  /** A post document; `image` and `video` are stored upload file names. */
  datatype Post = Post(
    owner: Id,
    title: string,
    content: string,
    image: Option<string>,
    video: Option<string>,
    createdAt: Time,
    updatedAt: Time)

  /** `required` on title and content (a string is missing when empty). */
  predicate PostValid(p: Post) {
    p.title != "" && p.content != ""
  }

  /** A comment document, with the fields the controllers read and write. */
  datatype Comment = Comment(post: Id, author: Id, content: string, createdAt: Time)

  /** A reaction ("like") document. */
  datatype Reaction = Reaction(post: Id, user: Id, createdAt: Time, updatedAt: Time)
}
