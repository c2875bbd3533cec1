/** The read side of postController.js: `getPosts` and `getMyPosts`.
    Both parse `page` and `limit` from the query string, count the posts
    they page over, fetch one window of them and project each post into a
    feed item carrying its comment and reaction counts and its author. */
module Feed {
  import opened Common
  import opened Text
  import opened Schema
  import opened Database

  const DefaultPage := 1
  const DefaultLimit := 10

  /** `parseInt(q, 10) || d`: NaN and 0 are falsy, so both give `d`. An
      absent query parameter parses as NaN. */
  function QueryInt(q: Option<string>, d: int): (n: int)
    requires d != 0
    ensures n != 0
    ensures (q.None? || ParseInt(q.value).None? || ParseInt(q.value) == Some(0)) ==> n == d
    ensures q.Some? && ParseInt(q.value).Some? && ParseInt(q.value).value != 0 ==> n == ParseInt(q.value).value
  {
    if q.None? then d
    else match ParseInt(q.value)
      case None => d
      case Some(v) => if v == 0 then d else v
  }

  /** A query parameter written as `String(n)` for a positive `n` is read
      back as `n`. */
  lemma QueryIntOfDecimal(n: nat, d: int)
    requires n != 0 && d != 0
    ensures QueryInt(Some(Decimal(n)), d) == n
  {
    ParseIntRoundTrip(n);
  }

  /** A query parameter with no leading digit falls back to the default. */
  lemma QueryIntDefaults(s: string, d: int)
    requires d != 0
    requires s != [] && s[0] != '-' && s[0] != '+' && !IsDigit(s[0]) && !IsJsWhitespace(s[0])
    ensures QueryInt(Some(s), d) == d
  {
    assert TrimStart(s) == s;
  }

  datatype Paging = Paging(page: int, limit: int, skip: int)

  /** The first three lines of both handlers. */
  function PagingOf(pageQuery: Option<string>, limitQuery: Option<string>): (p: Paging)
    ensures p.page == QueryInt(pageQuery, DefaultPage) && p.limit == QueryInt(limitQuery, DefaultLimit)
    ensures p.page != 0 && p.limit != 0
    ensures p.skip == (p.page - 1) * p.limit
  {
    var page := QueryInt(pageQuery, DefaultPage);
    var limit := QueryInt(limitQuery, DefaultLimit);
    Paging(page, limit, (page - 1) * limit)
  }

  /** With neither parameter given, the first ten posts are shown. */
  lemma PagingDefaults()
    ensures PagingOf(None, None) == Paging(1, 10, 0)
  {
  }

  function Abs(x: int): nat {
    if x < 0 then -x else x
  }

  /** `Math.floor(a / b)` on exact rationals. Dafny's `/` is Euclidean,
      which floors for a positive divisor only. */
  function FloorDiv(a: int, b: int): (q: int)
    requires b != 0
    ensures b > 0 ==> b * q <= a < b * q + b
    ensures b < 0 ==> b * q + b < a <= b * q
  {
    if b > 0 then a / b else (-a) / (-b)
  }

  /** `totalPages: Math.ceil(total / limit)`: the least `q` with
      `q * limit >= total` for a positive limit. A negative limit gives
      the ceiling of a negative quotient. */
  function TotalPages(total: int, limit: int): (q: int)
    requires limit != 0
    ensures limit > 0 ==> limit * (q - 1) < total <= limit * q
    ensures limit < 0 ==> limit * q <= total < limit * (q - 1)
  {
    -FloorDiv(-total, limit)
  }

  lemma TotalPagesExample()
    ensures TotalPages(25, 10) == 3 && TotalPages(30, 10) == 3 && TotalPages(0, 10) == 0
  {
  }

  /** `.skip(skip).limit(limit)`: MongoDB drops `skip` results and then
      returns at most `|limit|` of them (the driver reads a negative limit
      as its absolute value). */
  function Window<T>(xs: seq<T>, skip: nat, limit: int): (w: seq<T>)
    requires limit != 0
    ensures |w| <= Abs(limit)
    ensures |w| == if skip >= |xs| then 0 else if |xs| - skip < Abs(limit) then |xs| - skip else Abs(limit)
    ensures forall i :: 0 <= i < |w| ==> w[i] == xs[skip + i]
  {
    if skip >= |xs| then []
    else if |xs| - skip < Abs(limit) then xs[skip..]
    else xs[skip..skip + Abs(limit)]
  }

  /** With a positive limit, entry `i` of a listing is on page
      `i / limit + 1`, at position `i % limit`, and that page is within
      `totalPages`. */
  lemma PageOfIndex<T>(xs: seq<T>, i: nat, limit: int)
    requires limit > 0 && i < |xs|
    ensures var page := i / limit + 1;
            var skip := (page - 1) * limit;
            && 0 <= skip <= i
            && i - skip == i % limit
            && 1 <= page <= TotalPages(|xs|, limit)
            && Window(xs, skip, limit)[i % limit] == xs[i]
  {
    var page := i / limit + 1;
    var skip := (page - 1) * limit;
    assert skip == limit * (i / limit);
    assert i == limit * (i / limit) + i % limit;
    var q := TotalPages(|xs|, limit);
    assert limit * (q - 1) < |xs|;
    if page > q {
      assert i / limit >= q;
      MulMonotone(limit, q, i / limit);
      assert false;
    }
  }

  lemma MulMonotone(c: int, a: int, b: int)
    requires c > 0 && a <= b
    ensures c * a <= c * b
  {
  }

  /** A page that starts at or past the end of the listing is empty. */
  lemma PagePastEndIsEmpty<T>(xs: seq<T>, page: int, limit: int)
    requires limit > 0 && page > TotalPages(|xs|, limit)
    ensures (page - 1) * limit >= |xs|
    ensures Window(xs, (page - 1) * limit, limit) == []
  {
    var q := TotalPages(|xs|, limit);
    MulMonotone(limit, q, page - 1);
  }

  /** `post.image ? \`${baseUrl}/uploads/${post.image}\` : null`. */
  function UploadUrl(baseUrl: string, file: Option<string>): (url: Option<string>)
    ensures url.Some? <==> file.Some? && file.value != ""
    ensures url.Some? ==>
      && |url.value| == |baseUrl| + 9 + |file.value|
      && url.value[..|baseUrl|] == baseUrl
      && url.value[|baseUrl|..|baseUrl| + 9] == "/uploads/"
      && url.value[|baseUrl| + 9..] == file.value
  {
    if file.Some? && file.value != "" then Some(baseUrl + "/uploads/" + file.value) else None
  }

  /** The stored file name can be read back from the URL. */
  lemma UploadUrlInjective(baseUrl: string, f: Option<string>, g: Option<string>)
    requires UploadUrl(baseUrl, f) == UploadUrl(baseUrl, g) && UploadUrl(baseUrl, f).Some?
    ensures f == g
  {
  }

  /** The populated `user_id`: `name email profile_picture_url`. */
  datatype Author = Author(id: Id, name: string, email: string, pictureUrl: Option<string>)

  datatype FeedItem = FeedItem(
    id: Id,
    title: string,
    content: string,
    image: Option<string>,
    video: Option<string>,
    createdAt: Time,
    updatedAt: Time,
    commentCount: nat,
    reactionCount: nat,
    user: Author)

  /** The JSON object both handlers send. */
  datatype FeedPage = FeedPage(page: int, limit: int, total: nat, totalPages: int, posts: seq<FeedItem>)

  /** The projection of one fetched post. */
  function FeedItemOf(users: map<Id, User>, posts: map<Id, Post>, comments: map<Id, Comment>,
                      reactions: map<Id, Reaction>, baseUrl: string, id: Id): (item: FeedItem)
    requires id in posts && posts[id].owner in users
    ensures item.id == id && item.title == posts[id].title && item.content == posts[id].content
    ensures item.image == UploadUrl(baseUrl, posts[id].image) && item.video == UploadUrl(baseUrl, posts[id].video)
    ensures item.commentCount == |CommentsOn(comments, id)| && item.reactionCount == |ReactionsOn(reactions, id)|
    ensures item.createdAt == posts[id].createdAt && item.updatedAt == posts[id].updatedAt
    ensures item.user.id == posts[id].owner && item.user.name == users[posts[id].owner].name
    ensures item.user.email == users[posts[id].owner].email && item.user.pictureUrl == users[posts[id].owner].pictureUrl
  {
    var p := posts[id];
    var u := users[p.owner];
    FeedItem(id, p.title, p.content, UploadUrl(baseUrl, p.image), UploadUrl(baseUrl, p.video),
             p.createdAt, p.updatedAt, |CommentsOn(comments, id)|, |ReactionsOn(reactions, id)|,
             Author(p.owner, u.name, u.email, u.pictureUrl))
  }

  /** Every post of `ids` has an author in `users`: what `populate` needs
      to read `post.user_id._id` without throwing. */
  predicate AuthorsResolve(users: map<Id, User>, posts: map<Id, Post>, ids: seq<Id>) {
    forall i :: 0 <= i < |ids| ==> ids[i] in posts && posts[ids[i]].owner in users
  }

  function FeedItems(users: map<Id, User>, posts: map<Id, Post>, comments: map<Id, Comment>,
                     reactions: map<Id, Reaction>, baseUrl: string, ids: seq<Id>): (items: seq<FeedItem>)
    requires AuthorsResolve(users, posts, ids)
    ensures |items| == |ids|
    ensures forall i :: 0 <= i < |ids| ==> items[i] == FeedItemOf(users, posts, comments, reactions, baseUrl, ids[i])
  {
    seq(|ids|, i requires 0 <= i < |ids| => FeedItemOf(users, posts, comments, reactions, baseUrl, ids[i]))
  }

  /** A window of a listing whose authors resolve has authors that resolve. */
  lemma WindowResolves(users: map<Id, User>, posts: map<Id, Post>, order: seq<Id>, skip: nat, limit: int)
    requires limit != 0 && AuthorsResolve(users, posts, order)
    ensures AuthorsResolve(users, posts, Window(order, skip, limit))
  {
    var w := Window(order, skip, limit);
    forall i | 0 <= i < |w| ensures w[i] in posts && posts[w[i]].owner in users {
      assert w[i] == order[skip + i];
    }
  }

  /** One page of a listing `order` of `total` posts: a negative `skip`
      is refused by MongoDB, which the handler's `catch` turns into 500. */
  function FeedPageOf(users: map<Id, User>, posts: map<Id, Post>, comments: map<Id, Comment>,
                      reactions: map<Id, Reaction>, baseUrl: string, paging: Paging, order: seq<Id>): (r: Response<FeedPage>)
    requires paging.limit != 0
    requires AuthorsResolve(users, posts, order)
    ensures r.status == Ok || r == ServerError()
    ensures r.status == Ok <==> paging.skip >= 0
    ensures r.status == Ok ==> r.message.None? && r.payload.Some?
    ensures r.status == Ok ==>
      var f := r.payload.value;
      && f.page == paging.page && f.limit == paging.limit && f.total == |order|
      && f.totalPages == TotalPages(|order|, paging.limit)
      && |f.posts| <= Abs(paging.limit)
      && |f.posts| == |Window(order, paging.skip, paging.limit)|
      && (f.posts != [] ==> paging.skip + |f.posts| <= |order|)
      && (forall i :: 0 <= i < |f.posts| ==>
            f.posts[i] == FeedItemOf(users, posts, comments, reactions, baseUrl, order[paging.skip + i]))
  {
    if paging.skip < 0 then ServerError()
    else
      var ids := Window(order, paging.skip, paging.limit);
      WindowResolves(users, posts, order, paging.skip, paging.limit);
      var items := FeedItems(users, posts, comments, reactions, baseUrl, ids);
      Response(Ok, None, Some(FeedPage(paging.page, paging.limit, |order|, TotalPages(|order|, paging.limit), items)))
  }

  /** `getPosts`: every post, in the order the database returns them.
      The handler sorts on `created_at`, a field posts do not have (their
      timestamps are `createdAt`), so that order is left open: `order` is
      any listing of the posts. */
  function GetPosts(users: map<Id, User>, posts: map<Id, Post>, comments: map<Id, Comment>,
                    reactions: map<Id, Reaction>, baseUrl: string,
                    pageQuery: Option<string>, limitQuery: Option<string>, order: seq<Id>): (r: Response<FeedPage>)
    requires IsListingOf(order, posts.Keys)
    requires forall id :: id in posts ==> posts[id].owner in users
    ensures r.status == Ok <==> PagingOf(pageQuery, limitQuery).skip >= 0
    ensures r.status != Ok ==> r == ServerError()
    ensures r.status == Ok ==> r.payload.Some? && r.payload.value.total == |posts|
    ensures r.status == Ok ==>
      var paging := PagingOf(pageQuery, limitQuery);
      && r.payload.value.page == paging.page && r.payload.value.limit == paging.limit
      && r.payload.value.totalPages == TotalPages(|posts|, paging.limit)
      && |r.payload.value.posts| == |Window(order, paging.skip, paging.limit)|
      && (forall i :: 0 <= i < |r.payload.value.posts| ==>
            && 0 <= paging.skip + i < |order|
            && r.payload.value.posts[i] == FeedItemOf(users, posts, comments, reactions, baseUrl, order[paging.skip + i]))
    ensures r.status == Ok ==> forall item :: item in r.payload.value.posts ==> item.id in posts
  {
    ListingSize(order, posts.Keys);
    FeedPageOf(users, posts, comments, reactions, baseUrl, PagingOf(pageQuery, limitQuery), order)
  }

  /** Newest first by `createdAt`: the `.sort({ createdAt: -1 })` of `getMyPosts`. */
  predicate NewestFirst(posts: map<Id, Post>, order: seq<Id>)
    requires forall i :: 0 <= i < |order| ==> order[i] in posts
  {
    forall i, j :: 0 <= i < j < |order| ==> posts[order[i]].createdAt >= posts[order[j]].createdAt
  }

  /** The caller's posts in any listing are posts of the store whose
      author, the caller, resolves. */
  lemma MyPostsResolve(users: map<Id, User>, posts: map<Id, Post>, caller: Id, order: seq<Id>)
    requires IsListingOf(order, PostsBy(posts, caller)) && caller in users
    ensures AuthorsResolve(users, posts, order)
    ensures forall i :: 0 <= i < |order| ==> posts[order[i]].owner == caller
  {
  }

  /** Each item of a page is the projection of the listed post it stands for. */
  lemma PageItems(users: map<Id, User>, posts: map<Id, Post>, comments: map<Id, Comment>,
                  reactions: map<Id, Reaction>, baseUrl: string, paging: Paging, order: seq<Id>)
    requires paging.limit != 0 && paging.skip >= 0 && AuthorsResolve(users, posts, order)
    ensures var items := FeedPageOf(users, posts, comments, reactions, baseUrl, paging, order).payload.value.posts;
      forall i :: 0 <= i < |items| ==>
        && paging.skip + i < |order| && items[i].id == order[paging.skip + i]
        && items[i].createdAt == posts[order[paging.skip + i]].createdAt
        && items[i].user.id == posts[order[paging.skip + i]].owner
  {
  }

  /** A page of the caller's posts listed newest first holds only their
      posts, still newest first. */
  lemma MyPostsPage(users: map<Id, User>, posts: map<Id, Post>, comments: map<Id, Comment>,
                    reactions: map<Id, Reaction>, baseUrl: string, caller: Id, paging: Paging, order: seq<Id>)
    requires paging.limit != 0 && paging.skip >= 0
    requires IsListingOf(order, PostsBy(posts, caller)) && NewestFirst(posts, order) && caller in users
    ensures AuthorsResolve(users, posts, order)
    ensures var items := FeedPageOf(users, posts, comments, reactions, baseUrl, paging, order).payload.value.posts;
      && (forall item :: item in items ==> item.id in posts && posts[item.id].owner == caller && item.user.id == caller)
      && (forall i, j :: 0 <= i < j < |items| ==> items[i].createdAt >= items[j].createdAt)
  {
    MyPostsResolve(users, posts, caller, order);
    PageItems(users, posts, comments, reactions, baseUrl, paging, order);
    var items := FeedPageOf(users, posts, comments, reactions, baseUrl, paging, order).payload.value.posts;
    forall i, j | 0 <= i < j < |items| ensures items[i].createdAt >= items[j].createdAt {
      var a, b := paging.skip + i, paging.skip + j;
      assert posts[order[a]].createdAt >= posts[order[b]].createdAt;
    }
  }

  /** `getMyPosts`: the caller's posts, newest first. */
  function GetMyPosts(users: map<Id, User>, posts: map<Id, Post>, comments: map<Id, Comment>,
                      reactions: map<Id, Reaction>, baseUrl: string, caller: Id,
                      pageQuery: Option<string>, limitQuery: Option<string>, order: seq<Id>): (r: Response<FeedPage>)
    requires IsListingOf(order, PostsBy(posts, caller)) && NewestFirst(posts, order)
    requires caller in users
    ensures r.status == Ok <==> PagingOf(pageQuery, limitQuery).skip >= 0
    ensures r.status != Ok ==> r == ServerError()
    ensures r.status == Ok ==> r.payload.Some? && r.payload.value.total == |PostsBy(posts, caller)|
    ensures r.status == Ok ==>
      var paging := PagingOf(pageQuery, limitQuery);
      && r.payload.value.totalPages == TotalPages(|PostsBy(posts, caller)|, paging.limit)
      && |r.payload.value.posts| == |Window(order, paging.skip, paging.limit)|
      && (forall i :: 0 <= i < |r.payload.value.posts| ==>
            && 0 <= paging.skip + i < |order|
            && r.payload.value.posts[i] == FeedItemOf(users, posts, comments, reactions, baseUrl, order[paging.skip + i]))
    ensures r.status == Ok ==> forall item :: item in r.payload.value.posts ==> item.id in posts && posts[item.id].owner == caller && item.user.id == caller
    ensures r.status == Ok ==>
      var items := r.payload.value.posts;
      forall i, j :: 0 <= i < j < |items| ==> items[i].createdAt >= items[j].createdAt
  {
    ListingSize(order, PostsBy(posts, caller));
    MyPostsResolve(users, posts, caller, order);
    var paging := PagingOf(pageQuery, limitQuery);
    if paging.skip >= 0 then
      MyPostsPage(users, posts, comments, reactions, baseUrl, caller, paging, order);
      FeedPageOf(users, posts, comments, reactions, baseUrl, paging, order)
    else FeedPageOf(users, posts, comments, reactions, baseUrl, paging, order)
  }
}
