/** userController.js: `getProfile`, the authenticated user's own record
    with counts over the posts they wrote. It only reads. */
module UserController {
  import opened Common
  import opened Schema
  import opened Database

  datatype Profile = Profile(
    id: Id,
    name: string,
    email: string,
    pictureUrl: Option<string>,
    createdAt: Time,
    postCount: nat,
    reactionCount: nat,
    commentCount: nat)

  /** `getProfile` for the user the authentication middleware loaded.
      Reactions and comments are counted on the caller's posts, whoever
      wrote them; reactions the caller made elsewhere do not count. */
  function GetProfile(users: map<Id, User>, posts: map<Id, Post>, comments: map<Id, Comment>,
                      reactions: map<Id, Reaction>, caller: Id): (r: Response<Profile>)
    requires caller in users
    ensures r.status == Ok && r.message.None? && r.payload.Some?
    ensures var p := r.payload.value;
      && p.id == caller && p.name == users[caller].name && p.email == users[caller].email
      && p.createdAt == users[caller].createdAt
      && (p.pictureUrl.None? <==> users[caller].pictureUrl.None? || users[caller].pictureUrl.value == "")
      && (p.pictureUrl.Some? ==> p.pictureUrl == users[caller].pictureUrl)
      && p.postCount == |PostsBy(posts, caller)|
      && p.reactionCount == |OnPosts(reactions, ReactionPost, PostsBy(posts, caller))|
      && p.commentCount == |OnPosts(comments, CommentPost, PostsBy(posts, caller))|
  {
    var u := users[caller];
    var mine := PostsBy(posts, caller);
    var picture := if u.pictureUrl.Some? && u.pictureUrl.value != "" then u.pictureUrl else None;
    Response(Ok, None, Some(Profile(caller, u.name, u.email, picture, u.createdAt, |mine|,
                                    |OnPosts(reactions, ReactionPost, mine)|, |OnPosts(comments, CommentPost, mine)|)))
  }

  /** The profile's counts are the per-post counts of the caller's posts
      summed, in any listing of them (such as the my-posts feed). */
  lemma ProfileCountsAreSums(users: map<Id, User>, posts: map<Id, Post>, comments: map<Id, Comment>,
                             reactions: map<Id, Reaction>, caller: Id, order: seq<Id>)
    requires caller in users && IsListingOf(order, PostsBy(posts, caller))
    ensures var p := GetProfile(users, posts, comments, reactions, caller).payload.value;
            && p.postCount == |order|
            && p.reactionCount == SumOnPost(reactions, ReactionPost, order)
            && p.commentCount == SumOnPost(comments, CommentPost, order)
  {
    ListingSize(order, PostsBy(posts, caller));
    OnPostsIsSum(reactions, ReactionPost, order, PostsBy(posts, caller));
    OnPostsIsSum(comments, CommentPost, order, PostsBy(posts, caller));
  }

  /** A new reaction raises the caller's `reaction_count` exactly when it
      is on one of the caller's posts: liking someone else's post, even by
      the caller, leaves it unchanged. */
  lemma ReactionCountCountsReceivedLikes(users: map<Id, User>, posts: map<Id, Post>, comments: map<Id, Comment>,
                                         reactions: map<Id, Reaction>, caller: Id, id: Id, x: Reaction)
    requires caller in users && id !in reactions
    ensures var before := GetProfile(users, posts, comments, reactions, caller).payload.value.reactionCount;
            var after := GetProfile(users, posts, comments, reactions[id := x], caller).payload.value.reactionCount;
            after == if x.post in posts && posts[x.post].owner == caller then before + 1 else before
  {
    OnPostsInsertCount(reactions, ReactionPost, PostsBy(posts, caller), id, x);
  }
}
