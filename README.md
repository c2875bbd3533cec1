# social-media backend: a Dafny model of its controllers

This project models the request handlers of a small Express + MongoDB
social-media backend in Dafny and proves what they promise. The backend
has users who register and log in, posts with optional image and video
uploads, comments and "likes" (reactions).

The four MongoDB collections are one `Database.Store` object. Its fields
are maps from ids to documents, and its `Valid()` invariant states four
things:
- ids are fresh;
- every post passes its schema;
- every reference points at an existing document;
- both unique indexes hold: email on users, (post, user) on reactions.

Each handler is one of two kinds:
- a handler that writes is a method on the store, and its `ensures` give
  the response and the new contents of every collection;
- a handler that only reads is a function of the tables, and its `ensures`
  give the response.

The modules follow the repository:

| module | file | models |
|---|---|---|
| `Common` | common.dfy | ids, timestamps, the JSON response, the shared 500 |
| `Text` | text.dfy | JavaScript's `trim`, `length` (UTF-16), ASCII lower-casing, `join`, `parseInt(s, 10)` |
| `Patterns` | patterns.dfy | the email and picture-URL regular expressions |
| `Schema` | schema.dfy | the user, post, comment and reaction documents; the user schema's setters and validators |
| `Database` | store.dfy | the collections, the queries the handlers run, the store invariant |
| `ValidationMiddleware` | validation.dfy | `validateRegistration` |
| `Feed` | feed.dfy | `getPosts`, `getMyPosts` |
| `PostController` | posts.dfy | `createPost`, `editPost`, `deletePost`, `addComment`, `getComments`, `toggleReaction` |
| `AuthController` | auth.dfy | `registerUser`, `loginUser`, `logoutUser` |
| `UserController` | profile.dfy | `getProfile` |
| `Scenarios` | scenarios.dfy | sequences of requests: round trips and worked examples |

## A behaviour of the code

The code shows a behaviour that a reader of the API might not expect.
The model follows the code.

- **The global feed has no order.** `getPosts` sorts on `created_at`. Post
  documents carry `createdAt`, because `postModel.js` uses
  `timestamps: true`. So the sort key is missing on every post, and the
  feed comes back in whatever order the database uses. `Feed.GetPosts`
  therefore accepts any listing of the posts. `getMyPosts` sorts on
  `createdAt`, so the my-posts feed really is newest first
  (`Feed.GetMyPosts`).

Email lookups need care too. `User.findOne({ email })` does not compare
the email as the client sent it. Mongoose casts a query filter through
the path's setters, so the email is trimmed and lower-cased first
(`Schema.CastEmail`). Registration and login therefore find a stored user
under any spelling of their email that differs only in case or in
surrounding blanks.

## Model

| member | source | states |
|---|---|---|
| `Common.ServerError` | src/controllers/postController.js:62-65 | what every `catch` block sends: status 500 with the message "Server error" and nothing else |
| `Text.Trim` | src/middlewares/validationMiddleware.js:7-8 | the result has no JavaScript whitespace at either end, and is the input with a whitespace-only prefix and suffix cut off |
| `Text.TrimIdempotent` | src/middlewares/validationMiddleware.js:7-8 | trimming twice gives the same result as trimming once |
| `Text.TrimEmptyIff` | src/controllers/postController.js:267 | `s.trim() === ""` exactly when `s` is whitespace only, in both directions |
| `Text.Utf16Length` | src/middlewares/validationMiddleware.js:13 | JavaScript's `length` lies between the number of code points and twice that number |
| `Text.Utf16LengthOfBmp` | src/middlewares/validationMiddleware.js:13 | on the Basic Multilingual Plane, `length` is the number of characters |
| `Text.LowerAscii` | src/models/userModel.js:15 | the `lowercase` setter keeps the length and lowers each character in place |
| `Text.LowerAsciiIdempotent` | src/models/userModel.js:15 | lower-casing twice gives the same result as lower-casing once |
| `Text.LowerAsciiHasNoUpper` | src/models/userModel.js:15 | a lower-cased email holds no upper-case letter |
| `Text.LowerAsciiKeepsTrimmed` | src/models/userModel.js:15-16 | lower-casing a trimmed string leaves it trimmed |
| `Text.LowerAsciiTrimCommute` | src/models/userModel.js:15-16 | lower-casing and trimming commute, so the order of the two setters does not matter |
| `Text.Join` | src/middlewares/validationMiddleware.js:27-28 | joining no messages gives "", and joining one message gives that message |
| `Text.JoinSnoc` | src/middlewares/validationMiddleware.js:27-28 | appending a message to a non-empty list appends the separator and that message to the joined string |
| `Text.ParseInt` | src/controllers/postController.js:13-14 | `parseInt` is NaN exactly when no digit follows the leading whitespace and an optional sign |
| `Text.ParseIntOfDigits` | src/controllers/postController.js:13-14 | a string of decimal digits parses to its value |
| `Text.ParseIntOfNegative` | src/controllers/postController.js:13-14 | a minus sign followed by digits parses to the negated value |
| `Text.ParseIntRoundTrip` | src/controllers/postController.js:13-14 | `parseInt(String(n), 10) == n` for every natural number `n` |
| `Patterns.EmailPatternIgnoresCase` | src/models/userModel.js:15-20 | the `lowercase` setter never changes whether an email matches the schema's pattern, in either direction |
| `Patterns.EmailPatternChars` | src/models/userModel.js:18 | an email that matches the pattern holds only `\w` characters, `.`, `-` and `@` |
| `Patterns.EmailPatternIsTrimmed` | src/models/userModel.js:16-18 | an email that matches the pattern has no surrounding whitespace, so `trim` leaves it as it is |
| `Patterns.EmailPatternExample` | src/middlewares/validationMiddleware.js:15-17 | `alice@x.com` matches the pattern |
| `Patterns.EmailPatternRejectsShortTld` | src/middlewares/validationMiddleware.js:15-17 | `al@x.c` does not match, because a top-level label needs two or more word characters |
| `Patterns.PictureUrlIgnoresCase` | src/models/userModel.js:35-37 | the `i` flag: lower-casing a URL does not change whether it matches the picture pattern |
| `Patterns.PictureUrlAcceptsUpperCaseExtension` | src/models/userModel.js:35-37 | `https://cdn.example.com/me.PNG` is a valid picture URL |
| `Patterns.PictureUrlRejectsOtherSchemes` | src/models/userModel.js:35-37 | an `ftp://` URL is not a valid picture URL |
| `Schema.CastEmail` | src/models/userModel.js:15-16 | the email path's setters leave an email trimmed and free of upper-case letters |
| `Schema.CastEmailIdempotent` | src/models/userModel.js:15-16 | casting a cast email changes nothing, so the stored email is the key under which every spelling of it is found |
| `Schema.NewUserDocument` | src/models/userModel.js:5-44 | the setters: the name is exactly the trimmed name, the email exactly the trimmed and lower-cased email, the picture URL exactly the trimmed URL when present and absent otherwise; the password is kept as given; both timestamps are the creation time |
| `Schema.CreatedUserIsStored` | src/models/userModel.js:3-42 | a document the validators accept is stored in the normal form the setters produce |
| `Database.OnPost` | src/controllers/postController.js:31-32 | `find({ post: p })` selects exactly the rows whose `post` is `p` |
| `Database.OnPosts` | src/controllers/userController.js:17-18 | `{ post: { $in: ps } }` selects exactly the rows whose `post` is in `ps` |
| `Database.PostsBy` | src/controllers/userController.js:13 | `Post.find({ user_id: u })` selects exactly the posts of `u` |
| `Database.ReactionPairsMember` | src/models/reactionModel.js:21 | a (post, user) pair is liked exactly when some reaction row carries it |
| `Database.ListingSize` | src/controllers/postController.js:19-26 | a query that lists each matching document once returns `countDocuments` of them |
| `Database.OnPostsIsSum` | src/controllers/userController.js:15-19 | counting rows over a set of posts at once equals the sum of the per-post counts |
| `Database.WithoutPost` | src/controllers/postController.js:187-189 | `deleteMany({ post: p })` keeps exactly the rows of other posts, unchanged |
| `Database.CascadeLeavesOtherPosts` | src/controllers/postController.js:187-191 | after the cascade no row belongs to the deleted post, and every other post keeps exactly its rows |
| `Database.OnPostInsert` | src/controllers/postController.js:277-281 | a new row joins its own post's rows and no other post's |
| `Database.OnPostsInsertCount` | src/controllers/userController.js:17 | a new row adds one to a set of posts' count exactly when it is on one of them |
| `Database.OnPostInsertCount` | src/controllers/postController.js:366-370 | creating a reaction adds one to its post's `countDocuments` |
| `Database.OnPostRemove` | src/controllers/postController.js:363 | deleting a row takes it out of its own post's rows only |
| `Database.OnPostRemoveCount` | src/controllers/postController.js:363-370 | deleting a reaction takes one from its post's `countDocuments` |
| `Database.ReactionInsert` | src/models/reactionModel.js:21 | creating a reaction for a new pair adds that pair to the liked relation and keeps the `{ post, user }` index unique |
| `Database.ReactionRemove` | src/models/reactionModel.js:21 | deleting a reaction removes its pair from the liked relation, because the unique index lets no other row carry it |
| `Database.InsertUserValid` | src/models/userModel.js:14 | adding a user whose email is not taken keeps the store invariant, including the unique email index |
| `Database.PutPostValid` | src/models/postModel.js:5-17 | saving a post with a title, content and an existing owner keeps the store invariant |
| `Database.DeletePostValid` | src/controllers/postController.js:187-191 | deleting a post together with its comments and reactions keeps the store invariant |
| `Database.DeletePostReferences` | src/controllers/postController.js:187-191 | after the cascade no comment or reaction points at the deleted post |
| `Database.InsertCommentValid` | src/controllers/postController.js:277-281 | a comment on an existing post by an existing user keeps the store invariant |
| `Database.InsertReactionValid` | src/models/reactionModel.js:5-21 | a reaction for a new pair, on an existing post by an existing user, keeps the store invariant |
| `Database.RemoveReactionValid` | src/controllers/postController.js:363 | deleting a reaction keeps the store invariant |
| `Database.Store.InsertUser` | src/controllers/authController.js:23-28 | `User.create` adds exactly that document under a fresh id and changes nothing else |
| `Database.Store.InsertComment` | src/controllers/postController.js:277-281 | `Comment.create` adds exactly that comment under a fresh id |
| `Database.Store.InsertReaction` | src/controllers/postController.js:366 | `Reaction.create` adds exactly that reaction under a fresh id |
| `Database.Store.DeleteReaction` | src/controllers/postController.js:363 | `deleteOne` removes exactly that reaction |
| `ValidationMiddleware.RegistrationBody.Normalize` | src/middlewares/validationMiddleware.js:30-31 | the trimmed name and email are written back, and the passwords are left as they were |
| `ValidationMiddleware.NameConditions` | src/middlewares/validationMiddleware.js:7-13 | "Name is required" exactly when the name is blank; "Name cannot exceed 255 characters" exactly when the trimmed name is longer than 255 |
| `ValidationMiddleware.EmailConditions` | src/middlewares/validationMiddleware.js:8-17 | "Email is required" exactly when the email is blank; "Please enter a valid email" exactly when the trimmed email is non-empty and fails the pattern |
| `ValidationMiddleware.PasswordConditions` | src/middlewares/validationMiddleware.js:19-25 | each password and confirmation message is sent exactly when its condition holds |
| `ValidationMiddleware.ErrorConditions` | src/middlewares/validationMiddleware.js:12-25 | each of the eight messages is among the errors exactly when its condition holds |
| `ValidationMiddleware.FieldsOfChecks` | src/middlewares/validationMiddleware.js:12-25 | each field contributes at most one message, and only messages of its own field |
| `ValidationMiddleware.ErrorsInFieldOrder` | src/middlewares/validationMiddleware.js:12-25 | there are at most four errors, in field order: name, email, password, confirmation |
| `ValidationMiddleware.AcceptedPassword` | src/middlewares/validationMiddleware.js:19-25 | an accepted body has a password of at least 8 characters that equals its confirmation |
| `ValidationMiddleware.AcceptedBodyFitsUserSchema` | src/middlewares/validationMiddleware.js:12-17 | a body the middleware accepts yields a user document that passes the schema's name, email and password validators |
| `ValidationMiddleware.PushNameError` | src/middlewares/validationMiddleware.js:12-13 | the name block appends the name check's message, if any |
| `ValidationMiddleware.PushEmailError` | src/middlewares/validationMiddleware.js:16-17 | the email block appends the email check's message, if any |
| `ValidationMiddleware.PushPasswordError` | src/middlewares/validationMiddleware.js:19-21 | the password block appends the password check's message, if any |
| `ValidationMiddleware.PushConfirmationError` | src/middlewares/validationMiddleware.js:23-25 | the confirmation block appends the confirmation check's message, if any |
| `ValidationMiddleware.CheckFields` | src/middlewares/validationMiddleware.js:5-25 | the name and email are trimmed, and the errors array is the four checks in order |
| `ValidationMiddleware.Verdict` | src/middlewares/validationMiddleware.js:27-33 | `next()` exactly when there is no error; otherwise 400 with the messages joined by ", " |
| `ValidationMiddleware.ValidateRegistration` | src/middlewares/validationMiddleware.js:4-33 | a rejected body is left untouched; an accepted body gets its name and email trimmed and nothing else changes |
| `Feed.QueryInt` | src/controllers/postController.js:13-14 | `parseInt(q, 10) \|\| d`: NaN or 0 gives the default, any other parsed value is kept, and the result is never 0 |
| `Feed.QueryIntOfDecimal` | src/controllers/postController.js:13-14 | a parameter written as a positive number is read back as that number |
| `Feed.QueryIntDefaults` | src/controllers/postController.js:13-14 | a parameter that starts with neither a sign nor a digit gives the default |
| `Feed.PagingOf` | src/controllers/postController.js:13-15 | page and limit as parsed, both non-zero, and `skip == (page - 1) * limit` |
| `Feed.PagingDefaults` | src/controllers/postController.js:13-15 | without parameters: page 1, limit 10, skip 0 |
| `Feed.TotalPages` | src/controllers/postController.js:59 | `Math.ceil(total / limit)`: for a positive limit, the least `q` with `q * limit >= total` |
| `Feed.TotalPagesExample` | src/controllers/postController.js:59 | 25 posts make 3 pages of 10, 30 posts make 3, and 0 posts make 0 |
| `Feed.Window` | src/controllers/postController.js:24-25 | `.skip(s).limit(l)` keeps at most `\|l\|` consecutive entries from position `s`, and its exact length |
| `Feed.PageOfIndex` | src/controllers/postController.js:13-25 | every listed post is on page `i / limit + 1`, at position `i % limit`, within `totalPages` |
| `Feed.PagePastEndIsEmpty` | src/controllers/postController.js:13-25 | a page past `totalPages` is empty |
| `Feed.UploadUrl` | src/controllers/postController.js:39-40 | no URL for a missing or empty file name; otherwise `${baseUrl}/uploads/${file}`, part by part |
| `Feed.UploadUrlInjective` | src/controllers/postController.js:39-40 | the stored file name can be recovered from the URL |
| `Feed.FeedItemOf` | src/controllers/postController.js:35-51 | a feed item carries the post's fields, its upload URLs, its comment and reaction counts, and its author's id, name, email and picture URL |
| `Feed.FeedItems` | src/controllers/postController.js:28-53 | the fetched posts are projected one for one, in order |
| `Feed.FeedPageOf` | src/controllers/postController.js:19-64 | a negative skip is a 500; otherwise page, limit, total, totalPages and the projected window of the listing |
| `Feed.GetPosts` | src/controllers/postController.js:11-66 | `getPosts`: 200 exactly when skip is non-negative; the total counts every post; item `i` of the page is the projection of the post at position `skip + i` of the listing |
| `Feed.MyPostsResolve` | src/controllers/postController.js:211-213 | the my-posts query returns only the caller's posts |
| `Feed.PageItems` | src/controllers/postController.js:220-245 | item `i` of a page is the post at position `skip + i` of the listing |
| `Feed.MyPostsPage` | src/controllers/postController.js:213-218 | a page of the caller's posts holds only their posts, newest first |
| `Feed.GetMyPosts` | src/controllers/postController.js:203-258 | `getMyPosts`: the total counts the caller's posts; every item is the caller's; items come newest first; a negative skip is a 500 |
| `PostController.CreatePost` | src/controllers/postController.js:72-101 | a missing title or content is a 400 and nothing is written; otherwise 201 with a new post under a fresh id, and nothing else changes |
| `PostController.ApplyEdit` | src/controllers/postController.js:123-140 | a field changes exactly when a non-empty, different value is sent; an uploaded file replaces its name; `updatedAt` moves only when something changed |
| `PostController.EditKeepsPostValid` | src/controllers/postController.js:123-129 | an edit never leaves a post without a title or content |
| `PostController.EditIdempotent` | src/controllers/postController.js:123-140 | sending the same edit twice, even later, saves the same document as sending it once |
| `PostController.EmptyEditChangesNothing` | src/controllers/postController.js:123-140 | an edit with no fields and no files saves the post unchanged, `updatedAt` included |
| `PostController.AssignEdits` | src/controllers/postController.js:123-140 | the assignments followed by `save()` produce the edited document |
| `PostController.EditPost` | src/controllers/postController.js:106-152 | a malformed id is a 500, a missing post a 404, and another user's post a 401, none of them writing; the owner gets 200 and the edited post, and nothing else changes |
| `PostController.StoredFiles` | src/controllers/postController.js:173-185 | the files unlinked are exactly the post's non-empty image and video names, at most two |
| `PostController.DeletePost` | src/controllers/postController.js:157-198 | the same 500/404/401 as for editing, none of them writing; the owner's delete removes the post, its comments and its reactions, unlinks its files, and keeps the store invariant |
| `PostController.AddComment` | src/controllers/postController.js:263-300 | blank content is a 400 before any lookup; then a malformed id is a 500 and a missing post a 404; otherwise 201 with the new comment and its author, and the post gains exactly that comment |
| `PostController.CommentItemOf` | src/controllers/postController.js:323-332 | a listed comment carries its id, content, creation time, and its author's id, name and picture URL |
| `PostController.CommentItems` | src/controllers/postController.js:323-332 | the fetched comments are projected one for one, in order |
| `PostController.CommentListing` | src/controllers/postController.js:314-317 | the list holds every comment of the post, only those, oldest first |
| `PostController.GetComments` | src/controllers/postController.js:305-339 | a malformed id is a 500, a missing post a 404, and no comments a 404 with an empty list; otherwise 200 with all of the post's comments, oldest first |
| `PostController.Unlike` | src/controllers/postController.js:362-364 | deleting the caller's reaction removes exactly that row, its pair, and one from the post's count |
| `PostController.Like` | src/controllers/postController.js:365-368 | creating a reaction adds exactly that row under a fresh id, the caller's pair, and one to the post's count |
| `PostController.ToggleReaction` | src/controllers/postController.js:344-381 | no caller is a 401, a malformed id a 400, and a missing post a 404, none of them writing; otherwise the caller's reaction row is removed ("unliked") or a new one is added under a fresh id ("liked"), and the reported count is the new count, one less or one more |
| `AuthController.PictureOrNull` | src/controllers/authController.js:27 | `profile_picture_url \|\| null`: an empty URL is stored as null |
| `AuthController.RegisteredDocument` | src/controllers/authController.js:20-28 | the created user holds the hash of the password, the trimmed name, the trimmed and lower-cased email, the trimmed picture URL or null for an empty one, and the creation time |
| `AuthController.RegisterUser` | src/controllers/authController.js:11-48 | an email whose trimmed, lower-cased form is stored is a 409; a document the schema refuses is a 500; otherwise 201 with the new user, without the password, and a 30-day token |
| `AuthController.StoredHashFitsSchema` | src/controllers/authController.js:20-28 | a bcrypt hash meets the schema's `minlength`, and the stored password differs from any plaintext password that is not 60 characters long |
| `AuthController.RegistrationSchemaIff` | src/controllers/authController.js:23-28 | `User.create` accepts a registration exactly when the trimmed name is present and at most 255 long, the trimmed email matches the pattern, and the picture URL is absent, blank or an image URL |
| `AuthController.LoginUser` | src/controllers/authController.js:57-86 | an email whose trimmed, lower-cased form is not stored, or a wrong password, is a 400 "Invalid credentials"; the right password gives 200 with the user's id, name, email and token |
| `AuthController.LoginFailureIsUniform` | src/controllers/authController.js:63-70 | any two failed logins get the same response, so a client cannot tell an unknown email from a wrong password |
| `AuthController.LoginFails` | src/controllers/authController.js:63-70 | every failed login is exactly the 400 "Invalid credentials" |
| `AuthController.LoginWithRegisteredPassword` | src/controllers/authController.js:61-81 | a user logs in with any spelling of their email that casts to the stored one and the password whose hash is stored |
| `AuthController.LogoutUser` | src/controllers/authController.js:96-100 | logout always answers 200 "Successfully logged out" and changes nothing |
| `UserController.GetProfile` | src/controllers/userController.js:10-35 | the caller's own fields, an empty picture URL sent as null, and counts of their posts and of the reactions and comments on those posts |
| `UserController.ProfileCountsAreSums` | src/controllers/userController.js:15-19 | the profile's counts are the per-post counts summed over any listing of the caller's posts |
| `UserController.ReactionCountCountsReceivedLikes` | src/controllers/userController.js:17 | a new reaction raises `reaction_count` exactly when it is on one of the caller's posts |
| `Scenarios.ToggleBack` | src/controllers/postController.js:362-368 | two toggles of one pair restore the liked relation and the count, one saying "liked" and the other "unliked" |
| `Scenarios.ToggleTwice` | src/controllers/postController.js:344-381 | toggling twice leaves the post's reactions as they were |
| `Scenarios.DeleteThenRead` | src/controllers/postController.js:157-198 | after a delete, its comments are a 404, liking it is a 404, and no comment or reaction of it is left |
| `Scenarios.CommentThenList` | src/controllers/postController.js:263-339 | a comment just added is in the post's comment list |
| `Scenarios.RegisterThenLogin` | src/controllers/authController.js:11-86 | whoever registers logs in with the email and password they registered with, and gets their own id |
| `Scenarios.EmailTakenAfterInsert` | src/controllers/authController.js:15-17 | after registration every spelling of the stored email is taken, and a free email that casts to something else stays free |
| `Scenarios.RegisterTwice` | src/controllers/authController.js:15-28 | after a registration is stored, a second one under any spelling of the same email (other case, surrounding blanks) is a 409 and adds no user |
| `Scenarios.TenPerPageQueries` | src/controllers/postController.js:13-15 | `?page=1&limit=10` skips 0 and `?page=4&limit=10` skips 30 |
| `Scenarios.PaginationExample` | src/controllers/postController.js:11-66 | with 25 posts, page 1 holds 10 of 3 pages, and page 4 is empty but still reports the total |
| `Scenarios.AliceNameTrimmed` | src/middlewares/validationMiddleware.js:7 | "Alice" is kept as sent |
| `Scenarios.AliceEmail` | src/middlewares/validationMiddleware.js:15-17 | "alice@x.com" is kept by `trim` and matches the pattern |
| `Scenarios.AliceRegistration` | src/controllers/authController.js:23-28 | Alice's registration passes the schema's validators |
| `Scenarios.AcceptedWithoutPicture` | src/controllers/authController.js:23-28 | a registration without a picture whose trimmed name and email pass their validators is accepted |
| `Scenarios.SinglePostFeed` | src/controllers/postController.js:11-66 | a feed of one post shows that post alone |
| `Scenarios.OnlyPostFeed` | src/controllers/postController.js:28-53 | that post shows zero comments, zero reactions, and its author's name and email |
| `Scenarios.RegisterFirstUser` | src/controllers/authController.js:11-48 | registering on an empty store leaves exactly that user |
| `Scenarios.RegisterAndPost` | src/controllers/postController.js:72-101 | registering and then posting leaves exactly that user and that post |
| `Scenarios.ReadOnlyPost` | src/controllers/postController.js:11-66 | the feed of that store shows the post with zero counts and its author |
| `Scenarios.FirstPost` | src/controllers/postController.js:11-101 | a new user's first post is on the feed under their trimmed name and lower-cased email |

## Left out

- **I/O.**
  - HTTP, Express routing, `console.error` and the network are not modelled.
  - Each handler takes the request's fields as parameters and returns the response it would send.
  - A field missing from the body is the empty string; both are falsy in JavaScript.
  - A query parameter is `Option<string>`.
  - Repeated query parameters, which Express turns into arrays, are not modelled.
- **Middleware.** The authentication and upload middlewares are not modelled. The caller's id and the uploaded file names are parameters.
- **Comments.** The comment schema (`commentModel.js`) is not part of this model. A comment has the fields the handlers read and write: post, author, content and creation time.
- **Files.** `fs.unlink` is not performed. `PostController.DeletePost` returns the names of the files it would unlink, and a failed unlink is only logged in the source.
- **Crypto.** bcrypt and jsonwebtoken are functions in a `Crypto` value.
  - The model relies on two facts only: a password matches its own hash, and a hash has 60 characters.
  - Salt generation is a parameter.
  - Token expiry and verification are not modelled; the token's lifetime is passed to `sign` as 30 days.
- **Clocks.** The clock is a `now` parameter. Mongoose's timestamps use it.
- **Concurrency.** The handlers run one at a time, and every `Promise.all` is done in full. A race between two requests is not modelled, for example two toggles that both miss `findOne` and then break the unique index.
- **Store invariant.** `Database.Store.InsertUser` does not keep `UsersStored`. Only registration writes users, so `AuthController.RegisterUser` states that invariant instead of `Store.Valid()`.
- **Authors.** The feed handlers require every post's author to exist. No handler in this model deletes users, and `Store.Valid()` keeps that reference. With a missing author, `populate` would throw and the handler would answer 500.
- `AuthController.RegisterUser`: a body without `password` makes bcrypt throw, which gives a 500. The model reads a missing password as the empty string and hashes it. The route's validation middleware rejects both before this handler runs.
- `AuthController.StoredHashFitsSchema`: a plaintext password of exactly 60 characters could equal its own hash under the two facts assumed of bcrypt, so the model does not promise that such a password is never stored as is.
- `AuthController.LoginUser`:
  - A body without `password` makes `bcrypt.compare` throw, which gives a 500; the model answers 400.
  - A body without `email` queries for `email: undefined`; the model looks for the empty string.
  - Its `requires` is the unique email index, which the store invariant keeps.
- `PostController.EditPost`: the 500 response carries `error.message`, which the model leaves out; it sends the plain server error.
- `PostController.AddComment`: a `content` that is not a string makes `trim` throw, which gives a 500. The model's bodies hold strings only.
- `Feed.GetPosts`: the feed's order is any listing the caller supplies, because the handler sorts on a field posts do not have.
- `Feed.TotalPages`: exact integer arithmetic. JavaScript computes `Math.ceil` on a floating-point quotient, which agrees for all counts below 2^53.
- `Text.ParseInt`:
  - Values are exact. JavaScript rounds numbers beyond 2^53 to a double.
  - The round trip is stated for natural numbers, plus a minus sign followed by digits.
- `Text.LowerAscii`: only `A`–`Z` are lowered. `toLowerCase` also maps non-ASCII letters, a few of them to ASCII (the Kelvin sign becomes `k`). An email containing one could therefore match after JavaScript's lower-casing while the model rejects it.
- `Text.Utf16Length`: strings are sequences of Unicode scalar values, so a lone surrogate cannot be written.
