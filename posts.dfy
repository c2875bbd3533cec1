/** The write side of postController.js, and `getComments`: each handler
    is a method over the store that returns the response it sends. The
    caller is the user the authentication middleware put on `req.user`. */
module PostController {
  import opened Common
  import opened Text
  import opened Schema
  import opened Database

  const MissingTitleOrContent := "Please provide both title and content"
  const PostNotFound := "Post not found"
  const NotAuthorizedToEdit := "Not authorized to edit this post"
  const NotAuthorizedToDelete := "Not authorized to delete this post"
  const PostUpdated := "Post updated successfully"
  const PostDeleted := "Post deleted successfully"
  const CommentRequired := "Comment content is required"
  const NoComments := "No comments found"
  const NoCaller := "Unauthorized"
  const InvalidPostId := "Invalid post ID"

  /** A post document as the handlers send it back. */
  datatype PostDoc = PostDoc(id: Id, post: Post)

  /** `createPost`. `image` and `video` are the names the upload
      middleware gave the uploaded files, if any. */
  method CreatePost(db: Store, caller: Id, title: string, content: string,
                    image: Option<string>, video: Option<string>, now: Time) returns (r: Response<PostDoc>)
    requires db.Valid() && caller in db.users
    modifies db
    ensures db.Valid()
    ensures title == "" || content == "" ==> r == Fail(BadRequest, MissingTitleOrContent) && unchanged(db)
    ensures title != "" && content != "" ==>
      && r.status == Created && r.message.None? && r.payload.Some?
      && r.payload.value.id !in old(db.posts)
      && r.payload.value.post == Post(caller, title, content, image, video, now, now)
      && db.posts == old(db.posts)[r.payload.value.id := r.payload.value.post]
      && db.users == old(db.users) && db.comments == old(db.comments) && db.reactions == old(db.reactions)
  {
    if title == "" || content == "" {
      return Fail(BadRequest, MissingTitleOrContent);
    }
    var id := db.NewId();
    var post := Post(caller, title, content, image, video, now, now);
    PutPostValid(db.users, db.posts, db.comments, db.reactions, db.nextId, id, post);
    db.posts := db.posts[id := post];
    r := Response(Created, None, Some(PostDoc(id, post)));
  }

  /** The document `editPost` saves: a non-empty title or content that
      differs from the stored one replaces it, an uploaded file replaces
      the stored file name, and `updatedAt` moves to `now` only when
      something changed. */
  function ApplyEdit(p: Post, title: string, content: string,
                     image: Option<string>, video: Option<string>, now: Time): (q: Post)
    ensures q.owner == p.owner && q.createdAt == p.createdAt
    ensures q.title != p.title <==> title != "" && title != p.title
    ensures q.title != p.title ==> q.title == title
    ensures q.content != p.content <==> content != "" && content != p.content
    ensures q.content != p.content ==> q.content == content
    ensures image.Some? ==> q.image == image
    ensures image.None? ==> q.image == p.image
    ensures video.Some? ==> q.video == video
    ensures video.None? ==> q.video == p.video
    ensures (q.title, q.content, q.image, q.video) == (p.title, p.content, p.image, p.video) ==> q == p
    ensures (q.title, q.content, q.image, q.video) != (p.title, p.content, p.image, p.video) ==> q.updatedAt == now
  {
    var t := if title != "" && title != p.title then title else p.title;
    var c := if content != "" && content != p.content then content else p.content;
    var i := if image.Some? then image else p.image;
    var v := if video.Some? then video else p.video;
    var changed := t != p.title || c != p.content || i != p.image || v != p.video;
    Post(p.owner, t, c, i, v, p.createdAt, if changed then now else p.updatedAt)
  }

  /** An edit keeps a post valid: title and content are only ever
      replaced by non-empty values. */
  lemma EditKeepsPostValid(p: Post, title: string, content: string, image: Option<string>, video: Option<string>, now: Time)
    requires PostValid(p)
    ensures PostValid(ApplyEdit(p, title, content, image, video, now))
  {
  }

  /** Sending the same edit twice is the same as sending it once, even at
      a later time: the second save modifies nothing. */
  lemma EditIdempotent(p: Post, title: string, content: string, image: Option<string>, video: Option<string>,
                       now: Time, later: Time)
    ensures var q := ApplyEdit(p, title, content, image, video, now);
            ApplyEdit(q, title, content, image, video, later) == q
  {
  }

  /** An edit with no fields and no files saves the post as it was. */
  lemma EmptyEditChangesNothing(p: Post, now: Time)
    ensures ApplyEdit(p, "", "", None, None, now) == p
  {
  }

  /** The assignments `editPost` makes to the fetched document before
      `post.save()`, which stamps `updatedAt` only if a path was modified. */
  method AssignEdits(p: Post, title: string, content: string,
                     image: Option<string>, video: Option<string>, now: Time) returns (post: Post)
    ensures post == ApplyEdit(p, title, content, image, video, now)
  {
    post := p;
    var modified := false;
    if title != "" && title != post.title {
      post := post.(title := title);
      modified := true;
    }
    if content != "" && content != post.content {
      post := post.(content := content);
      modified := true;
    }
    if image.Some? {
      modified := modified || image != post.image;
      post := post.(image := image);
    }
    if video.Some? {
      modified := modified || video != post.video;
      post := post.(video := video);
    }
    if modified {
      post := post.(updatedAt := now);
    }
  }

  /** `editPost`. */
  method EditPost(db: Store, caller: Id, postId: ObjectIdParam, title: string, content: string,
                  image: Option<string>, video: Option<string>, now: Time) returns (r: Response<PostDoc>)
    requires db.Valid()
    modifies db
    ensures db.Valid()
    ensures postId.Malformed? ==> r == ServerError() && unchanged(db)
    ensures postId.WellFormed? && postId.id !in old(db.posts) ==> r == Fail(NotFound, PostNotFound) && unchanged(db)
    ensures postId.WellFormed? && postId.id in old(db.posts) && old(db.posts)[postId.id].owner != caller ==>
      r == Fail(Unauthorized, NotAuthorizedToEdit) && unchanged(db)
    ensures postId.WellFormed? && postId.id in old(db.posts) && old(db.posts)[postId.id].owner == caller ==>
      var q := ApplyEdit(old(db.posts)[postId.id], title, content, image, video, now);
      && r == Response(Ok, Some(PostUpdated), Some(PostDoc(postId.id, q)))
      && db.posts == old(db.posts)[postId.id := q]
      && db.users == old(db.users) && db.comments == old(db.comments) && db.reactions == old(db.reactions)
      && db.nextId == old(db.nextId)
  {
    if postId.Malformed? {
      return ServerError();
    }
    var id := postId.id;
    if id !in db.posts {
      return Fail(NotFound, PostNotFound);
    }
    var post := db.posts[id];
    if post.owner != caller {
      return Fail(Unauthorized, NotAuthorizedToEdit);
    }
    post := AssignEdits(post, title, content, image, video, now);
    EditKeepsPostValid(db.posts[id], title, content, image, video, now);
    PutPostValid(db.users, db.posts, db.comments, db.reactions, db.nextId, id, post);
    db.posts := db.posts[id := post];
    r := Response(Ok, Some(PostUpdated), Some(PostDoc(id, post)));
  }

  /** The upload file names `deletePost` passes to `fs.unlink`: the image,
      then the video, each only when set. */
  function StoredFiles(p: Post): (files: seq<string>)
    ensures |files| <= 2
    ensures forall f :: f in files <==> f != "" && (p.image == Some(f) || p.video == Some(f))
  {
    (if p.image.Some? && p.image.value != "" then [p.image.value] else [])
    + (if p.video.Some? && p.video.value != "" then [p.video.value] else [])
  }

  /** `deletePost`. `unlinked` lists the files whose removal it starts. */
  method DeletePost(db: Store, caller: Id, postId: ObjectIdParam) returns (r: Response<()>, unlinked: seq<string>)
    requires db.Valid()
    modifies db
    ensures db.Valid()
    ensures postId.Malformed? ==> r == ServerError() && unlinked == [] && unchanged(db)
    ensures postId.WellFormed? && postId.id !in old(db.posts) ==>
      r == Fail(NotFound, PostNotFound) && unlinked == [] && unchanged(db)
    ensures postId.WellFormed? && postId.id in old(db.posts) && old(db.posts)[postId.id].owner != caller ==>
      r == Fail(Unauthorized, NotAuthorizedToDelete) && unlinked == [] && unchanged(db)
    ensures postId.WellFormed? && postId.id in old(db.posts) && old(db.posts)[postId.id].owner == caller ==>
      && r == Response(Ok, Some(PostDeleted), None)
      && unlinked == StoredFiles(old(db.posts)[postId.id])
      && db.posts == old(db.posts) - {postId.id}
      && db.comments == WithoutPost(old(db.comments), CommentPost, postId.id)
      && db.reactions == WithoutPost(old(db.reactions), ReactionPost, postId.id)
      && db.users == old(db.users) && db.nextId == old(db.nextId)
  {
    unlinked := [];
    if postId.Malformed? {
      return ServerError(), unlinked;
    }
    var id := postId.id;
    if id !in db.posts {
      return Fail(NotFound, PostNotFound), unlinked;
    }
    var post := db.posts[id];
    if post.owner != caller {
      return Fail(Unauthorized, NotAuthorizedToDelete), unlinked;
    }
    if post.image.Some? && post.image.value != "" {
      unlinked := unlinked + [post.image.value];
    }
    if post.video.Some? && post.video.value != "" {
      unlinked := unlinked + [post.video.value];
    }
    DeletePostValid(db.users, db.posts, db.comments, db.reactions, db.nextId, id);
    db.comments := WithoutPost(db.comments, CommentPost, id);
    db.reactions := WithoutPost(db.reactions, ReactionPost, id);
    db.posts := db.posts - {id};
    r := Response(Ok, Some(PostDeleted), None);
  }

  /** The populated `user_id` of a comment: `name profile_picture_url`. */
  datatype Commenter = Commenter(id: Id, name: string, pictureUrl: Option<string>)

  /** The comment `addComment` sends back. */
  datatype CommentView = CommentView(id: Id, post: Id, user: Commenter, content: string, createdAt: Time)

  /** `addComment`. The content check runs before the post is looked up. */
  method AddComment(db: Store, caller: Id, postId: ObjectIdParam, content: string, now: Time)
    returns (r: Response<CommentView>)
    requires db.Valid() && caller in db.users
    modifies db
    ensures db.Valid()
    ensures AllWhitespace(content) ==> r == Fail(BadRequest, CommentRequired) && unchanged(db)
    ensures !AllWhitespace(content) && postId.Malformed? ==> r == ServerError() && unchanged(db)
    ensures !AllWhitespace(content) && postId.WellFormed? && postId.id !in old(db.posts) ==>
      r == Fail(NotFound, PostNotFound) && unchanged(db)
    ensures !AllWhitespace(content) && postId.WellFormed? && postId.id in old(db.posts) ==>
      && r.status == Created && r.message.None? && r.payload.Some?
      && r.payload.value.id !in old(db.comments)
      && r.payload.value == CommentView(r.payload.value.id, postId.id,
           Commenter(caller, old(db.users)[caller].name, old(db.users)[caller].pictureUrl), content, now)
      && db.comments == old(db.comments)[r.payload.value.id := Comment(postId.id, caller, content, now)]
      && CommentsOn(db.comments, postId.id) == CommentsOn(old(db.comments), postId.id) + {r.payload.value.id}
      && db.users == old(db.users) && db.posts == old(db.posts) && db.reactions == old(db.reactions)
  {
    TrimEmptyIff(content);
    if content == "" || Trim(content) == "" {
      return Fail(BadRequest, CommentRequired);
    }
    if postId.Malformed? {
      return ServerError();
    }
    var p := postId.id;
    if p !in db.posts {
      return Fail(NotFound, PostNotFound);
    }
    var comment := Comment(p, caller, content, now);
    var id := db.InsertComment(comment);
    OnPostInsert(old(db.comments), CommentPost, id, comment, p);
    var author := db.users[caller];
    r := Response(Created, None, Some(CommentView(id, p, Commenter(caller, author.name, author.pictureUrl), content, now)));
  }

  /** A comment of `getComments`' list. */
  datatype CommentItem = CommentItem(id: Id, content: string, createdAt: Time, user: Commenter)

  /** Oldest first: the `.sort({ created_at: 1 })` of `getComments`. */
  predicate OldestFirst(comments: map<Id, Comment>, order: seq<Id>)
    requires forall i :: 0 <= i < |order| ==> order[i] in comments
  {
    forall i, j :: 0 <= i < j < |order| ==> comments[order[i]].createdAt <= comments[order[j]].createdAt
  }

  function CommentItemOf(users: map<Id, User>, comments: map<Id, Comment>, id: Id): (item: CommentItem)
    requires id in comments && comments[id].author in users
    ensures item.id == id && item.content == comments[id].content && item.createdAt == comments[id].createdAt
    ensures item.user.id == comments[id].author && item.user.name == users[comments[id].author].name
    ensures item.user.pictureUrl == users[comments[id].author].pictureUrl
  {
    var c := comments[id];
    var u := users[c.author];
    CommentItem(id, c.content, c.createdAt, Commenter(c.author, u.name, u.pictureUrl))
  }

  /** The projection of each listed comment, in listing order. */
  function CommentItems(users: map<Id, User>, comments: map<Id, Comment>, order: seq<Id>): (items: seq<CommentItem>)
    requires forall i :: 0 <= i < |order| ==> order[i] in comments && comments[order[i]].author in users
    ensures |items| == |order|
    ensures forall i :: 0 <= i < |order| ==> items[i] == CommentItemOf(users, comments, order[i])
  {
    seq(|order|, i requires 0 <= i < |order| => CommentItemOf(users, comments, order[i]))
  }

  /** Listing the comments of a post oldest first projects each of them
      exactly once, oldest first. */
  lemma CommentListing(users: map<Id, User>, comments: map<Id, Comment>, p: Id, order: seq<Id>)
    requires forall id :: id in comments ==> comments[id].author in users
    requires IsListingOf(order, CommentsOn(comments, p)) && OldestFirst(comments, order)
    ensures var items := CommentItems(users, comments, order);
      && (forall i :: 0 <= i < |items| ==>
            && items[i].id in comments && comments[items[i].id].post == p
            && items[i].content == comments[items[i].id].content)
      && (forall c :: c in comments && comments[c].post == p ==>
            exists i :: 0 <= i < |items| && items[i].id == c)
      && (forall i, j :: 0 <= i < j < |items| ==> items[i].createdAt <= items[j].createdAt)
  {
    var items := CommentItems(users, comments, order);
    forall c | c in comments && comments[c].post == p
      ensures exists i :: 0 <= i < |items| && items[i].id == c
    {
      assert c in CommentsOn(comments, p);
      assert items[IndexOf(order, c)].id == c;
    }
  }

  /** `getComments`. `order` is how the database lists the post's
      comments, oldest first. */
  function GetComments(users: map<Id, User>, posts: map<Id, Post>, comments: map<Id, Comment>,
                       postId: ObjectIdParam, order: seq<Id>): (r: Response<seq<CommentItem>>)
    requires forall id :: id in comments ==> comments[id].author in users
    requires postId.WellFormed? && postId.id in posts ==>
               IsListingOf(order, CommentsOn(comments, postId.id)) && OldestFirst(comments, order)
    ensures postId.Malformed? ==> r == ServerError()
    ensures postId.WellFormed? && postId.id !in posts ==> r == Fail(NotFound, PostNotFound)
    ensures postId.WellFormed? && postId.id in posts && CommentsOn(comments, postId.id) == {} ==>
      r == Response(NotFound, Some(NoComments), Some([]))
    ensures postId.WellFormed? && postId.id in posts && CommentsOn(comments, postId.id) != {} ==>
      && r.status == Ok && r.message.None? && r.payload.Some?
      && |r.payload.value| == |CommentsOn(comments, postId.id)|
      && (forall i :: 0 <= i < |r.payload.value| ==>
            && r.payload.value[i].id in comments && comments[r.payload.value[i].id].post == postId.id
            && r.payload.value[i].content == comments[r.payload.value[i].id].content)
      && (forall c :: c in comments && comments[c].post == postId.id ==>
            exists i :: 0 <= i < |r.payload.value| && r.payload.value[i].id == c)
      && (forall i, j :: 0 <= i < j < |r.payload.value| ==> r.payload.value[i].createdAt <= r.payload.value[j].createdAt)
  {
    if postId.Malformed? then ServerError()
    else if postId.id !in posts then Fail(NotFound, PostNotFound)
    else
      ListingSize(order, CommentsOn(comments, postId.id));
      if order == [] then Response(NotFound, Some(NoComments), Some([]))
      else
        CommentListing(users, comments, postId.id, order);
        Response(Ok, None, Some(CommentItems(users, comments, order)))
  }

  /** The position of `x` in `xs`. */
  function IndexOf(xs: seq<Id>, x: Id): (i: nat)
    requires x in xs
    ensures i < |xs| && xs[i] == x
  {
    if xs[0] == x then 0 else 1 + IndexOf(xs[1..], x)
  }

  /** What `toggleReaction` reports besides its message. */
  datatype ToggleResult = ToggleResult(status: string, reactionCount: nat)

  /** The branch of `toggleReaction` that finds the caller's reaction:
      it is deleted, which takes its pair away and one from the post's count. */
  method Unlike(db: Store, existing: Id)
    requires db.Valid() && existing in db.reactions
    modifies db
    ensures db.Valid()
    ensures var r := old(db.reactions[existing]);
      && ReactionPairs(db.reactions) == ReactionPairs(old(db.reactions)) - {(r.post, r.user)}
      && |ReactionsOn(db.reactions, r.post)| == |ReactionsOn(old(db.reactions), r.post)| - 1
    ensures db.reactions == old(db.reactions) - {existing}
    ensures db.users == old(db.users) && db.posts == old(db.posts) && db.comments == old(db.comments)
  {
    ReactionRemove(db.reactions, existing);
    OnPostRemoveCount(db.reactions, ReactionPost, existing);
    db.DeleteReaction(existing);
  }

  /** The branch of `toggleReaction` that finds none: a reaction is
      created, which adds the pair and one to the post's count. */
  method Like(db: Store, p: Id, u: Id, now: Time) returns (id: Id)
    requires db.Valid() && p in db.posts && u in db.users && (p, u) !in ReactionPairs(db.reactions)
    modifies db
    ensures db.Valid()
    ensures id !in old(db.reactions) && db.reactions == old(db.reactions)[id := Reaction(p, u, now, now)]
    ensures ReactionPairs(db.reactions) == ReactionPairs(old(db.reactions)) + {(p, u)}
    ensures |ReactionsOn(db.reactions, p)| == |ReactionsOn(old(db.reactions), p)| + 1
    ensures db.users == old(db.users) && db.posts == old(db.posts) && db.comments == old(db.comments)
  {
    var reaction := Reaction(p, u, now, now);
    ghost var before := db.reactions;
    id := db.InsertReaction(reaction);
    ReactionInsert(before, id, reaction);
    OnPostInsertCount(before, ReactionPost, id, reaction);
  }

  /** `toggleReaction`. `caller` is `req.user?.id`. */
  method ToggleReaction(db: Store, caller: Option<Id>, postId: ObjectIdParam, now: Time)
    returns (r: Response<ToggleResult>)
    requires db.Valid() && (caller.Some? ==> caller.value in db.users)
    modifies db
    ensures db.Valid()
    ensures caller.None? ==> r == Fail(Unauthorized, NoCaller) && unchanged(db)
    ensures caller.Some? && postId.Malformed? ==> r == Fail(BadRequest, InvalidPostId) && unchanged(db)
    ensures caller.Some? && postId.WellFormed? && postId.id !in old(db.posts) ==>
      r == Fail(NotFound, PostNotFound) && unchanged(db)
    ensures caller.Some? && postId.WellFormed? && postId.id in old(db.posts) ==>
      var pair := (postId.id, caller.value);
      var before := |ReactionsOn(old(db.reactions), postId.id)|;
      && r.status == Ok && r.payload.Some?
      && r.payload.value.reactionCount == |ReactionsOn(db.reactions, postId.id)|
      && r.message == Some("Reaction " + r.payload.value.status)
      && (pair in ReactionPairs(old(db.reactions)) ==>
            && r.payload.value.status == "unliked"
            && r.payload.value.reactionCount == before - 1
            && ReactionPairs(db.reactions) == ReactionPairs(old(db.reactions)) - {pair}
            && exists id: Id :: id in old(db.reactions) && old(db.reactions)[id].post == pair.0
                            && old(db.reactions)[id].user == pair.1 && db.reactions == old(db.reactions) - {id})
      && (pair !in ReactionPairs(old(db.reactions)) ==>
            && r.payload.value.status == "liked"
            && r.payload.value.reactionCount == before + 1
            && ReactionPairs(db.reactions) == ReactionPairs(old(db.reactions)) + {pair}
            && exists id: Id :: id !in old(db.reactions) && db.reactions == old(db.reactions)[id := Reaction(pair.0, pair.1, now, now)])
      && db.users == old(db.users) && db.posts == old(db.posts) && db.comments == old(db.comments)
  {
    if caller.None? {
      return Fail(Unauthorized, NoCaller);
    }
    if postId.Malformed? {
      return Fail(BadRequest, InvalidPostId);
    }
    var p, u := postId.id, caller.value;
    if p !in db.posts {
      return Fail(NotFound, PostNotFound);
    }
    ReactionPairsMember(db.reactions, p, u);
    var status: string;
    if existing :| existing in db.reactions && db.reactions[existing].post == p && db.reactions[existing].user == u {
      Unlike(db, existing);
      status := "unliked";
    } else {
      var id := Like(db, p, u, now);
      status := "liked";
    }
    var count := |ReactionsOn(db.reactions, p)|;
    r := Response(Ok, Some("Reaction " + status), Some(ToggleResult(status, count)));
  }
}
