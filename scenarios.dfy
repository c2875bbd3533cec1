/** Sequences of requests against one store, each stated as what the
    handlers promise together: the round trips and examples the API is
    documented by. */
module Scenarios {
  import opened Common
  import opened Text
  import opened Patterns
  import opened Schema
  import opened Database
  import opened Feed
  import opened PostController
  import opened AuthController

  /** The pairs, counts and statuses of two toggles of one pair, each
      removing the pair if present and adding it if absent. */
  lemma ToggleBack(before: set<(Id, Id)>, mid: set<(Id, Id)>, after: set<(Id, Id)>, pair: (Id, Id),
                   c0: int, c1: int, c2: int, s1: string, s2: string)
    requires pair in before ==> s1 == "unliked" && mid == before - {pair} && c1 == c0 - 1
    requires pair !in before ==> s1 == "liked" && mid == before + {pair} && c1 == c0 + 1
    requires pair in mid ==> s2 == "unliked" && after == mid - {pair} && c2 == c1 - 1
    requires pair !in mid ==> s2 == "liked" && after == mid + {pair} && c2 == c1 + 1
    ensures after == before && c2 == c0 && {s1, s2} == {"liked", "unliked"}
  {
  }

  /** Two toggles by the same user on the same post: the first likes and
      the second unlikes, or the other way round, and the post is left with
      the reactions it had. */
  method ToggleTwice(db: Store, caller: Id, post: Id, now: Time, later: Time)
    returns (first: Response<ToggleResult>, second: Response<ToggleResult>)
    requires db.Valid() && caller in db.users && post in db.posts
    modifies db
    ensures db.Valid()
    ensures first.status == Ok && second.status == Ok && first.payload.Some? && second.payload.Some?
    ensures {first.payload.value.status, second.payload.value.status} == {"liked", "unliked"}
    ensures ReactionPairs(db.reactions) == old(ReactionPairs(db.reactions))
    ensures second.payload.value.reactionCount == |ReactionsOn(old(db.reactions), post)|
  {
    ghost var before, c0 := ReactionPairs(db.reactions), |ReactionsOn(db.reactions, post)|;
    first := ToggleReaction(db, Some(caller), WellFormed(post), now);
    ghost var mid := ReactionPairs(db.reactions);
    second := ToggleReaction(db, Some(caller), WellFormed(post), later);
    ToggleBack(before, mid, ReactionPairs(db.reactions), (post, caller), c0,
               first.payload.value.reactionCount, second.payload.value.reactionCount,
               first.payload.value.status, second.payload.value.status);
  }

  /** After its owner deletes a post, the post's comments are reported
      missing, liking it is refused, and no comment or reaction of it is
      left to count. */
  method DeleteThenRead(db: Store, owner: Id, post: Id, now: Time)
    returns (comments: Response<seq<CommentItem>>, like: Response<ToggleResult>)
    requires db.Valid() && owner in db.users && post in db.posts && db.posts[post].owner == owner
    modifies db
    ensures db.Valid()
    ensures comments == Fail(NotFound, PostNotFound)
    ensures like == Fail(NotFound, PostNotFound)
    ensures CommentsOn(db.comments, post) == {} && ReactionsOn(db.reactions, post) == {}
  {
    var deleted, _ := DeletePost(db, owner, WellFormed(post));
    comments := GetComments(db.users, db.posts, db.comments, WellFormed(post), []);
    like := ToggleReaction(db, Some(owner), WellFormed(post), now);
  }

  /** A comment added to a post is listed by `getComments` next. */
  method CommentThenList(db: Store, caller: Id, post: Id, content: string, now: Time, order: seq<Id>)
    returns (added: Response<CommentView>)
    requires db.Valid() && caller in db.users && post in db.posts && !AllWhitespace(content)
    modifies db
    ensures db.Valid()
    ensures added.status == Created && added.payload.Some?
    ensures IsListingOf(order, CommentsOn(db.comments, post)) && OldestFirst(db.comments, order) ==>
      var listed := GetComments(db.users, db.posts, db.comments, WellFormed(post), order);
      && listed.status == Ok && listed.payload.Some?
      && exists i :: 0 <= i < |listed.payload.value| && listed.payload.value[i].id == added.payload.value.id
  {
    added := AddComment(db, caller, WellFormed(post), content, now);
  }

  /** Whoever registers can log in with the email and the password they
      registered with, and is told their own id. */
  method RegisterThenLogin(db: Store, crypto: Crypto, name: string, email: string, password: string,
                           pictureUrl: string, salt: string, now: Time)
    returns (registered: Response<Registration>, login: Response<LoginView>)
    requires db.Valid() && UsersStored(db.users) && CryptoOk(crypto)
    modifies db
    ensures db.Valid() && UsersStored(db.users)
    ensures registered.status == Created ==>
      && registered.payload.Some?
      && var id := registered.payload.value.user.id;
      && login == Response(Ok, None, Some(LoginView(id, registered.payload.value.user.name,
                                                    registered.payload.value.user.email,
                                                    crypto.sign(id, TokenLifetimeDays))))
  {
    registered := RegisterUser(db, crypto, name, email, password, pictureUrl, salt, now);
    if registered.status == Created {
      var id := registered.payload.value.user.id;
      LoginWithRegisteredPassword(db.users, crypto, id, email, password, salt);
    }
    login := LoginUser(db.users, crypto, email, password);
  }

  /** After a user is added, every spelling of an email that casts to
      theirs is taken, and an email that was free and casts to something
      else is still free. */
  lemma EmailTakenAfterInsert(users: map<Id, User>, id: Id, doc: User, email: string)
    ensures CastEmail(email) == doc.email ==> EmailTaken(users[id := doc], email)
    ensures CastEmail(email) != doc.email && !EmailTaken(users, email) ==> !EmailTaken(users[id := doc], email)
  {
    assert users[id := doc][id].email == doc.email;
  }

  /** Registering twice: once the first registration is stored, a second
      one under any spelling of the same email (other case, surrounding
      blanks) is a 409 and stores nothing. */
  method RegisterTwice(db: Store, crypto: Crypto, name: string, email: string, other: string, password: string,
                       pictureUrl: string, salt: string, now: Time)
    returns (first: Response<Registration>, second: Response<Registration>)
    requires db.Valid() && UsersStored(db.users)
    modifies db
    ensures db.Valid() && UsersStored(db.users)
    ensures first.status == Created && CastEmail(other) == CastEmail(email) ==>
      second == Fail(Conflict, UserExists) && |db.users| == |old(db.users)| + 1
  {
    ghost var before := db.users;
    first := RegisterUser(db, crypto, name, email, password, pictureUrl, salt, now);
    if first.status == Created {
      EmailTakenAfterInsert(before, first.payload.value.user.id,
                            RegisteredDocument(crypto, name, email, password, pictureUrl, salt, now), other);
    }
    second := RegisterUser(db, crypto, name, other, password, pictureUrl, salt, now);
  }

  /** `?page=1&limit=10` and `?page=4&limit=10` as the handlers read them. */
  lemma TenPerPageQueries()
    ensures PagingOf(Some("1"), Some("10")) == Paging(1, 10, 0)
    ensures PagingOf(Some("4"), Some("10")) == Paging(4, 10, 30)
  {
    QueryIntOfDecimal(1, DefaultPage);
    QueryIntOfDecimal(4, DefaultPage);
    QueryIntOfDecimal(10, DefaultLimit);
    assert Decimal(1) == "1" && Decimal(4) == "4" && Decimal(10) == "10";
  }

  /** Twenty-five posts ten to a page: the first page is full, there are
      three pages, and the fourth page is empty but still reports the
      total. */
  lemma PaginationExample(users: map<Id, User>, posts: map<Id, Post>, comments: map<Id, Comment>,
                          reactions: map<Id, Reaction>, baseUrl: string, order: seq<Id>)
    requires IsListingOf(order, posts.Keys) && |posts| == 25
    requires forall id :: id in posts ==> posts[id].owner in users
    ensures var first := GetPosts(users, posts, comments, reactions, baseUrl, Some("1"), Some("10"), order);
            && first.status == Ok && first.payload.Some?
            && |first.payload.value.posts| == 10 && first.payload.value.totalPages == 3
    ensures var fourth := GetPosts(users, posts, comments, reactions, baseUrl, Some("4"), Some("10"), order);
            && fourth.status == Ok && fourth.payload.Some?
            && fourth.payload.value.posts == [] && fourth.payload.value.total == 25
  {
    ListingSize(order, posts.Keys);
    TenPerPageQueries();
  }

  const AliceName := "Alice"
  const AliceAddress := "alice@x.com"

  /** Alice's name is kept as sent, so it is present and short enough. */
  lemma AliceNameTrimmed()
    ensures Trim(AliceName) == AliceName
    ensures Trim(AliceName) != "" && Utf16Length(Trim(AliceName)) <= NameMaxLength
  {
    assert IsTrimmed("Alice");
    TrimOfTrimmed("Alice");
    assert Utf16Length("Alice") <= 2 * 5;
  }

  /** Alice's email is kept as sent by `trim` and matches the email pattern. */
  lemma AliceEmail()
    ensures EmailPattern(Trim(AliceAddress))
  {
    EmailPatternExample();
    EmailPatternIsTrimmed("alice@x.com");
  }

  /** Alice's registration passes the schema's validators. */
  lemma AliceRegistration(crypto: Crypto, salt: string, now: Time)
    requires CryptoOk(crypto)
    ensures UserValid(RegisteredDocument(crypto, AliceName, AliceAddress, "password123", "", salt, now))
  {
    AliceNameTrimmed();
    AliceEmail();
    AcceptedWithoutPicture(crypto, AliceName, AliceAddress, "password123", salt, now);
  }

  /** A registration without a picture whose trimmed name and email pass
      their validators is accepted. */
  lemma AcceptedWithoutPicture(crypto: Crypto, name: string, email: string, password: string, salt: string, now: Time)
    requires CryptoOk(crypto)
    requires Trim(name) != "" && Utf16Length(Trim(name)) <= NameMaxLength && EmailPattern(Trim(email))
    ensures UserValid(RegisteredDocument(crypto, name, email, password, "", salt, now))
  {
    RegistrationSchemaIff(crypto, name, email, password, "", salt, now);
  }

  /** The first page of a feed holding one post shows that post alone,
      projected from the store. */
  lemma SinglePostFeed(users: map<Id, User>, posts: map<Id, Post>, comments: map<Id, Comment>,
                       reactions: map<Id, Reaction>, baseUrl: string, post: Id)
    requires posts.Keys == {post} && posts[post].owner in users
    ensures var feed := GetPosts(users, posts, comments, reactions, baseUrl, Some("1"), Some("10"), [post]);
            && feed.status == Ok && feed.payload.Some? && |feed.payload.value.posts| == 1
            && feed.payload.value.posts[0] == FeedItemOf(users, posts, comments, reactions, baseUrl, post)
  {
    TenPerPageQueries();
    assert IsListingOf([post], posts.Keys);
  }

  /** The feed of a store holding one user, one post of theirs and nothing
      else shows that post with no comments and no reactions, under its
      author's stored name and email. */
  lemma OnlyPostFeed(users: map<Id, User>, posts: map<Id, Post>, comments: map<Id, Comment>,
                     reactions: map<Id, Reaction>, baseUrl: string, author: Id, post: Id)
    requires users.Keys == {author} && posts.Keys == {post} && posts[post].owner in users
    requires comments == map[] && reactions == map[]
    ensures var feed := GetPosts(users, posts, comments, reactions, baseUrl, Some("1"), Some("10"), [post]);
            && feed.status == Ok && feed.payload.Some? && |feed.payload.value.posts| == 1
            && var item := feed.payload.value.posts[0];
            && item.title == posts[post].title && item.content == posts[post].content
            && item.commentCount == 0 && item.reactionCount == 0
            && item.user.name == users[author].name && item.user.email == users[author].email
  {
    SinglePostFeed(users, posts, comments, reactions, baseUrl, post);
    assert CommentsOn(comments, post) == {} && ReactionsOn(reactions, post) == {};
  }

  /** Registration on a new store: the store then holds that one user and
      nothing else. */
  method RegisterFirstUser(crypto: Crypto, name: string, email: string, password: string,
                           salt: string, now: Time) returns (db: Store, author: Id)
    requires UserValid(RegisteredDocument(crypto, name, email, password, "", salt, now))
    ensures fresh(db) && db.Valid()
    ensures db.users == map[author := RegisteredDocument(crypto, name, email, password, "", salt, now)]
    ensures db.posts == map[] && db.comments == map[] && db.reactions == map[]
  {
    db := new Store();
    var registered := RegisterUser(db, crypto, name, email, password, "", salt, now);
    author := registered.payload.value.user.id;
  }

  /** On a new store, a user whose registration the schema accepts posts:
      the store then holds that user, that post and nothing else. */
  method RegisterAndPost(crypto: Crypto, name: string, email: string, password: string, salt: string,
                         title: string, content: string, now: Time) returns (db: Store, author: Id, post: Id)
    requires UserValid(RegisteredDocument(crypto, name, email, password, "", salt, now))
    requires title != "" && content != ""
    ensures fresh(db) && db.Valid()
    ensures db.users == map[author := RegisteredDocument(crypto, name, email, password, "", salt, now)]
    ensures db.posts == map[post := Post(author, title, content, None, None, now, now)]
    ensures db.comments == map[] && db.reactions == map[]
  {
    db, author := RegisterFirstUser(crypto, name, email, password, salt, now);
    var created := CreatePost(db, author, title, content, None, None, now);
    post := created.payload.value.id;
  }

  /** The first page of the feed of a store holding one user and one post
      of theirs, read by `getPosts`. */
  method ReadOnlyPost(db: Store, author: Id, post: Id, baseUrl: string) returns (feed: Response<FeedPage>)
    requires db.Valid() && db.users.Keys == {author} && db.posts.Keys == {post}
    requires db.comments == map[] && db.reactions == map[]
    ensures feed.status == Ok && feed.payload.Some? && |feed.payload.value.posts| == 1
    ensures var item := feed.payload.value.posts[0];
            && item.title == db.posts[post].title && item.content == db.posts[post].content
            && item.commentCount == 0 && item.reactionCount == 0
            && item.user.name == db.users[author].name && item.user.email == db.users[author].email
  {
    OnlyPostFeed(db.users, db.posts, db.comments, db.reactions, baseUrl, author, post);
    feed := GetPosts(db.users, db.posts, db.comments, db.reactions, baseUrl, Some("1"), Some("10"), [post]);
  }

  /** On a new store, a user whose registration the schema accepts posts,
      and finds the post on the first page of the feed with no comments,
      no reactions and their stored name and email as its author's. */
  method FirstPost(crypto: Crypto, name: string, email: string, password: string, salt: string,
                   title: string, content: string, baseUrl: string, now: Time)
    returns (feed: Response<FeedPage>)
    requires UserValid(RegisteredDocument(crypto, name, email, password, "", salt, now))
    requires title != "" && content != ""
    ensures feed.status == Ok && feed.payload.Some? && |feed.payload.value.posts| == 1
    ensures var item := feed.payload.value.posts[0];
            && item.title == title && item.content == content
            && item.commentCount == 0 && item.reactionCount == 0
            && item.user.name == Trim(name) && item.user.email == LowerAscii(Trim(email))
  {
    var db, author, post := RegisterAndPost(crypto, name, email, password, salt, title, content, now);
    feed := ReadOnlyPost(db, author, post, baseUrl);
  }
}
