/** The MongoDB database as one in-memory store: the users, posts,
    comments and reactions collections keyed by id, and the queries the
    controllers run against them. */
module Database {
  import opened Common
  import opened Schema

  function CommentPost(c: Comment): Id { c.post }
  function ReactionPost(r: Reaction): Id { r.post }

  /** The rows of `table` that belong to post `p`: what `find({ post: p })`
      selects; `countDocuments({ post: p })` is its size. */
  function OnPost<T>(table: map<Id, T>, postOf: T -> Id, p: Id): (ids: set<Id>)
    ensures forall id :: id in ids <==> id in table && postOf(table[id]) == p
  {
    set id | id in table && postOf(table[id]) == p
  }

  /** The rows of `table` that belong to any post of `ps`: the filter
      `{ post: { $in: ps } }`. */
  function OnPosts<T>(table: map<Id, T>, postOf: T -> Id, ps: set<Id>): (ids: set<Id>)
    ensures forall id :: id in ids <==> id in table && postOf(table[id]) in ps
  {
    set id | id in table && postOf(table[id]) in ps
  }

  function CommentsOn(comments: map<Id, Comment>, p: Id): set<Id> {
    OnPost(comments, CommentPost, p)
  }

  function ReactionsOn(reactions: map<Id, Reaction>, p: Id): set<Id> {
    OnPost(reactions, ReactionPost, p)
  }

  /** `Post.find({ user_id: u })`. */
  function PostsBy(posts: map<Id, Post>, u: Id): (ids: set<Id>)
    ensures forall id :: id in ids <==> id in posts && posts[id].owner == u
  {
    set id | id in posts && posts[id].owner == u
  }

  /** The (post, user) pairs that have a reaction: the "liked" relation. */
  function ReactionPairs(reactions: map<Id, Reaction>): set<(Id, Id)> {
    set id | id in reactions :: (reactions[id].post, reactions[id].user)
  }

  /** A pair is liked exactly when some reaction row carries it. */
  lemma ReactionPairsMember(reactions: map<Id, Reaction>, p: Id, u: Id)
    ensures (p, u) in ReactionPairs(reactions) <==> exists id :: id in reactions && reactions[id].post == p && reactions[id].user == u
  {
    if exists id :: id in reactions && reactions[id].post == p && reactions[id].user == u {
      var id :| id in reactions && reactions[id].post == p && reactions[id].user == u;
      assert (reactions[id].post, reactions[id].user) in ReactionPairs(reactions);
    }
  }

  /** The unique index `{ post: 1, user: 1 }` of reactionModel.js. */
  predicate ReactionsUnique(reactions: map<Id, Reaction>) {
    forall a, b ::
      (a in reactions && b in reactions && reactions[a].post == reactions[b].post
       && reactions[a].user == reactions[b].user) ==> a == b
  }

  /** The unique index on `email` of userModel.js. */
  predicate EmailsUnique(users: map<Id, User>) {
    forall a, b :: a in users && b in users && users[a].email == users[b].email ==> a == b
  }

  /** `order` lists the ids of `ids`, each exactly once: the documents a
      query returns, in the order the database returns them. */
  predicate IsListingOf(order: seq<Id>, ids: set<Id>) {
    && (forall i, j :: 0 <= i < j < |order| ==> order[i] != order[j])
    && (forall i :: 0 <= i < |order| ==> order[i] in ids)
    && (forall id :: id in ids ==> id in order)
  }

  lemma ListingDropLast(order: seq<Id>, ids: set<Id>)
    requires IsListingOf(order, ids) && order != []
    ensures order[|order| - 1] in ids
    ensures IsListingOf(order[..|order| - 1], ids - {order[|order| - 1]})
  {
    var last := order[|order| - 1];
    var rest := order[..|order| - 1];
    forall id | id in ids - {last} ensures id in rest {
      var k :| 0 <= k < |order| && order[k] == id;
      assert k != |order| - 1;
      assert rest[k] == id;
    }
    forall i | 0 <= i < |rest| ensures rest[i] in ids - {last} {
      assert rest[i] == order[i];
    }
  }

  /** A listing has as many entries as the set has elements. */
  lemma {:induction false} ListingSize(order: seq<Id>, ids: set<Id>)
    requires IsListingOf(order, ids)
    ensures |order| == |ids|
  {
    if order != [] {
      ListingDropLast(order, ids);
      ListingSize(order[..|order| - 1], ids - {order[|order| - 1]});
    }
  }

  /** The per-post counts of `table` summed over the posts of `order`. */
  function SumOnPost<T>(table: map<Id, T>, postOf: T -> Id, order: seq<Id>): nat {
    if order == [] then 0
    else SumOnPost(table, postOf, order[..|order| - 1]) + |OnPost(table, postOf, order[|order| - 1])|
  }

  /** Counting the rows of a set of posts at once gives the sum of the
      counts post by post. */
  lemma {:induction false} OnPostsIsSum<T>(table: map<Id, T>, postOf: T -> Id, order: seq<Id>, ids: set<Id>)
    requires IsListingOf(order, ids)
    ensures |OnPosts(table, postOf, ids)| == SumOnPost(table, postOf, order)
  {
    if order == [] {
      assert OnPosts(table, postOf, ids) == {};
    } else {
      var last := order[|order| - 1];
      var rest := order[..|order| - 1];
      ListingDropLast(order, ids);
      OnPostsIsSum(table, postOf, rest, ids - {last});
      var before, here := OnPosts(table, postOf, ids - {last}), OnPost(table, postOf, last);
      assert OnPosts(table, postOf, ids) == before + here;
      assert before * here == {};
    }
  }

  /** `deleteMany({ post: p })`: the rows of `table` that do not belong
      to post `p`, unchanged. */
  function WithoutPost<T>(table: map<Id, T>, postOf: T -> Id, p: Id): (t: map<Id, T>)
    ensures forall id :: id in t <==> id in table && postOf(table[id]) != p
    ensures forall id :: id in t ==> t[id] == table[id]
  {
    map id | id in table && postOf(table[id]) != p :: table[id]
  }

  /** After `deleteMany({ post: p })` no row belongs to `p`, and every
      other post keeps exactly the rows it had. */
  lemma CascadeLeavesOtherPosts<T>(table: map<Id, T>, postOf: T -> Id, p: Id, q: Id)
    ensures OnPost(WithoutPost(table, postOf, p), postOf, p) == {}
    ensures q != p ==> OnPost(WithoutPost(table, postOf, p), postOf, q) == OnPost(table, postOf, q)
  {
    var t := WithoutPost(table, postOf, p);
    if q != p {
      assert forall id :: id in OnPost(t, postOf, q) <==> id in OnPost(table, postOf, q);
    }
    assert forall id :: id !in OnPost(t, postOf, p);
  }

  /** Inserting a row under a fresh id adds it to its own post's rows only. */
  lemma OnPostInsert<T>(table: map<Id, T>, postOf: T -> Id, id: Id, row: T, q: Id)
    requires id !in table
    ensures OnPost(table[id := row], postOf, q)
            == if postOf(row) == q then OnPost(table, postOf, q) + {id} else OnPost(table, postOf, q)
  {
    var before, after := OnPost(table, postOf, q), OnPost(table[id := row], postOf, q);
    if postOf(row) == q {
      assert forall x :: x in after <==> x in before + {id};
    } else {
      assert forall x :: x in after <==> x in before;
    }
  }

  /** A new row adds one to the rows of a set of posts exactly when it
      belongs to one of them. */
  lemma OnPostsInsertCount<T>(table: map<Id, T>, postOf: T -> Id, ps: set<Id>, id: Id, row: T)
    requires id !in table
    ensures |OnPosts(table[id := row], postOf, ps)|
            == if postOf(row) in ps then |OnPosts(table, postOf, ps)| + 1 else |OnPosts(table, postOf, ps)|
  {
    var b, a := OnPosts(table, postOf, ps), OnPosts(table[id := row], postOf, ps);
    if postOf(row) in ps {
      assert a == b + {id};
    } else {
      assert a == b;
    }
  }

  /** A new row adds one to the count of its post's rows. */
  lemma OnPostInsertCount<T>(table: map<Id, T>, postOf: T -> Id, id: Id, row: T)
    requires id !in table
    ensures |OnPost(table[id := row], postOf, postOf(row))| == |OnPost(table, postOf, postOf(row))| + 1
  {
    OnPostInsert(table, postOf, id, row, postOf(row));
    assert id !in OnPost(table, postOf, postOf(row));
  }

  /** Removing a row takes one from the count of its post's rows. */
  lemma OnPostRemoveCount<T>(table: map<Id, T>, postOf: T -> Id, id: Id)
    requires id in table
    ensures |OnPost(table - {id}, postOf, postOf(table[id]))| == |OnPost(table, postOf, postOf(table[id]))| - 1
  {
    OnPostRemove(table, postOf, id, postOf(table[id]));
    assert id in OnPost(table, postOf, postOf(table[id]));
  }

  /** Removing one row takes it out of its post's rows. */
  lemma OnPostRemove<T>(table: map<Id, T>, postOf: T -> Id, id: Id, q: Id)
    requires id in table
    ensures OnPost(table - {id}, postOf, q)
            == if postOf(table[id]) == q then OnPost(table, postOf, q) - {id} else OnPost(table, postOf, q)
  {
    var before, after := OnPost(table, postOf, q), OnPost(table - {id}, postOf, q);
    if postOf(table[id]) == q {
      assert forall x :: x in after <==> x in before - {id};
    } else {
      assert forall x :: x in after <==> x in before;
    }
  }

  /** `Reaction.create` under a fresh id adds its pair to the relation and
      keeps the (post, user) index unique when the pair was new. */
  lemma ReactionInsert(reactions: map<Id, Reaction>, id: Id, r: Reaction)
    requires id !in reactions && ReactionsUnique(reactions)
    requires (r.post, r.user) !in ReactionPairs(reactions)
    ensures ReactionPairs(reactions[id := r]) == ReactionPairs(reactions) + {(r.post, r.user)}
    ensures ReactionsUnique(reactions[id := r])
  {
    var after := reactions[id := r];
    assert ReactionPairs(after) == ReactionPairs(reactions) + {(r.post, r.user)} by {
      forall pair | pair in ReactionPairs(reactions) ensures pair in ReactionPairs(after) {
        var x :| x in reactions && pair == (reactions[x].post, reactions[x].user);
        assert after[x] == reactions[x];
      }
      assert after[id] == r;
    }
  }

  /** `existingReaction.deleteOne()` removes its pair from the relation:
      the index is unique, so no other row carries the same pair. */
  lemma ReactionRemove(reactions: map<Id, Reaction>, id: Id)
    requires id in reactions && ReactionsUnique(reactions)
    ensures ReactionPairs(reactions - {id}) == ReactionPairs(reactions) - {(reactions[id].post, reactions[id].user)}
    ensures ReactionsUnique(reactions - {id})
  {
    var pair := (reactions[id].post, reactions[id].user);
    var after := reactions - {id};
    forall x | x in ReactionPairs(reactions) - {pair} ensures x in ReactionPairs(after) {
      var k :| k in reactions && x == (reactions[k].post, reactions[k].user);
      assert k != id && after[k] == reactions[k];
    }
  }

  /** Every id in use was handed out before `next`. */
  predicate IdsIssued(users: map<Id, User>, posts: map<Id, Post>, comments: map<Id, Comment>,
                      reactions: map<Id, Reaction>, next: Id) {
    && (forall id :: id in users ==> id < next)
    && (forall id :: id in posts ==> id < next)
    && (forall id :: id in comments ==> id < next)
    && (forall id :: id in reactions ==> id < next)
  }

  /** Every `ref` points at an existing document: a post's `user_id`, a
      comment's `post` and `user_id`, a reaction's `post` and `user`. */
  predicate ReferencesResolve(users: map<Id, User>, posts: map<Id, Post>, comments: map<Id, Comment>,
                              reactions: map<Id, Reaction>) {
    && (forall id :: id in posts ==> posts[id].owner in users)
    && (forall id :: id in comments ==> comments[id].post in posts && comments[id].author in users)
    && (forall id :: id in reactions ==> reactions[id].post in posts && reactions[id].user in users)
  }

  /** Every user document passed the schema validators and is in the form
      the schema's setters produce. */
  predicate UsersStored(users: map<Id, User>) {
    forall id :: id in users ==> UserStored(users[id])
  }

  /** The invariant of the tables apart from the users' own documents:
      ids, validity of every post, references, and both unique indexes. */
  predicate TablesValid(users: map<Id, User>, posts: map<Id, Post>, comments: map<Id, Comment>,
                        reactions: map<Id, Reaction>, next: Id) {
    && IdsIssued(users, posts, comments, reactions, next)
    && (forall id :: id in posts ==> PostValid(posts[id]))
    && ReferencesResolve(users, posts, comments, reactions)
    && EmailsUnique(users)
    && ReactionsUnique(reactions)
  }

  lemma IssueId(users: map<Id, User>, posts: map<Id, Post>, comments: map<Id, Comment>,
                reactions: map<Id, Reaction>, next: Id)
    requires TablesValid(users, posts, comments, reactions, next)
    ensures next !in users && next !in posts && next !in comments && next !in reactions
    ensures TablesValid(users, posts, comments, reactions, next + 1)
  {
  }

  lemma InsertUserStored(users: map<Id, User>, id: Id, u: User)
    requires UsersStored(users) && UserStored(u)
    ensures UsersStored(users[id := u])
  {
  }

  /** `User.create` of a user whose email is not taken. */
  lemma InsertUserValid(users: map<Id, User>, posts: map<Id, Post>, comments: map<Id, Comment>,
                        reactions: map<Id, Reaction>, next: Id, id: Id, u: User)
    requires TablesValid(users, posts, comments, reactions, next)
    requires id < next && id !in users
    requires forall x :: x in users ==> users[x].email != u.email
    ensures TablesValid(users[id := u], posts, comments, reactions, next)
  {
  }

  /** Saving a valid post under a fresh id, or over a post with the same
      owner. */
  lemma PutPostValid(users: map<Id, User>, posts: map<Id, Post>, comments: map<Id, Comment>,
                     reactions: map<Id, Reaction>, next: Id, id: Id, p: Post)
    requires TablesValid(users, posts, comments, reactions, next)
    requires id < next && PostValid(p) && p.owner in users
    ensures TablesValid(users, posts[id := p], comments, reactions, next)
  {
  }

  /** Deleting a post together with its comments and reactions. */
  lemma DeletePostValid(users: map<Id, User>, posts: map<Id, Post>, comments: map<Id, Comment>,
                        reactions: map<Id, Reaction>, next: Id, id: Id)
    requires TablesValid(users, posts, comments, reactions, next)
    ensures TablesValid(users, posts - {id}, WithoutPost(comments, CommentPost, id),
                        WithoutPost(reactions, ReactionPost, id), next)
  {
    var c, r := WithoutPost(comments, CommentPost, id), WithoutPost(reactions, ReactionPost, id);
    DeletePostReferences(users, posts, comments, reactions, id);
    assert IdsIssued(users, posts - {id}, c, r, next);
    assert ReactionsUnique(r);
  }

  /** No comment or reaction is left pointing at a deleted post. */
  lemma DeletePostReferences(users: map<Id, User>, posts: map<Id, Post>, comments: map<Id, Comment>,
                             reactions: map<Id, Reaction>, id: Id)
    requires ReferencesResolve(users, posts, comments, reactions)
    ensures ReferencesResolve(users, posts - {id}, WithoutPost(comments, CommentPost, id),
                              WithoutPost(reactions, ReactionPost, id))
  {
  }

  lemma InsertCommentValid(users: map<Id, User>, posts: map<Id, Post>, comments: map<Id, Comment>,
                           reactions: map<Id, Reaction>, next: Id, id: Id, c: Comment)
    requires TablesValid(users, posts, comments, reactions, next)
    requires id < next && c.post in posts && c.author in users
    ensures TablesValid(users, posts, comments[id := c], reactions, next)
  {
  }

  lemma InsertReactionValid(users: map<Id, User>, posts: map<Id, Post>, comments: map<Id, Comment>,
                            reactions: map<Id, Reaction>, next: Id, id: Id, r: Reaction)
    requires TablesValid(users, posts, comments, reactions, next)
    requires id < next && id !in reactions && r.post in posts && r.user in users
    requires (r.post, r.user) !in ReactionPairs(reactions)
    ensures TablesValid(users, posts, comments, reactions[id := r], next)
  {
    ReactionInsert(reactions, id, r);
  }

  lemma RemoveReactionValid(users: map<Id, User>, posts: map<Id, Post>, comments: map<Id, Comment>,
                            reactions: map<Id, Reaction>, next: Id, id: Id)
    requires TablesValid(users, posts, comments, reactions, next) && id in reactions
    ensures TablesValid(users, posts, comments, reactions - {id}, next)
  {
    ReactionRemove(reactions, id);
  }

  class Store {
    var users: map<Id, User>
    var posts: map<Id, Post>
    var comments: map<Id, Comment>
    var reactions: map<Id, Reaction>
    /** The next fresh ObjectId. */
    var nextId: Id

    /** The consistency of the tables. That every user document is as
        the schema stores it is `UsersStored(users)`, kept apart because
        only registration writes to `users`. */
    ghost predicate Valid()
      reads this
    {
      TablesValid(users, posts, comments, reactions, nextId)
    }

    constructor ()
      ensures Valid() && UsersStored(users)
      ensures users == map[] && posts == map[] && comments == map[] && reactions == map[]
    {
      users, posts, comments, reactions := map[], map[], map[], map[];
      nextId := 0;
    }

    /** A fresh ObjectId, used by no document. */
    method NewId() returns (id: Id)
      requires Valid()
      modifies this`nextId
      ensures Valid() && id == old(nextId) && nextId == id + 1
      ensures id !in users && id !in posts && id !in comments && id !in reactions
    {
      IssueId(users, posts, comments, reactions, nextId);
      id := nextId;
      nextId := nextId + 1;
    }
  
    /** `User.create(u)` for a document in stored form whose email is not
        taken yet. */
    method InsertUser(u: User) returns (id: Id)
      requires Valid()
      requires forall x :: x in users ==> users[x].email != u.email
      modifies this
      ensures Valid()
      ensures id !in old(users) && users == old(users)[id := u]
      ensures posts == old(posts) && comments == old(comments) && reactions == old(reactions)
    {
      id := NewId();
      InsertUserValid(users, posts, comments, reactions, nextId, id, u);
      users := users[id := u];
    }

    /** `Comment.create(c)` on an existing post by an existing user. */
    method InsertComment(c: Comment) returns (id: Id)
      requires Valid() && c.post in posts && c.author in users
      modifies this
      ensures Valid() && id !in old(comments) && comments == old(comments)[id := c]
      ensures users == old(users) && posts == old(posts) && reactions == old(reactions)
    {
      id := NewId();
      InsertCommentValid(users, posts, comments, reactions, nextId, id, c);
      comments := comments[id := c];
    }

    /** `Reaction.create(r)` for a pair that has no reaction yet. */
    method InsertReaction(r: Reaction) returns (id: Id)
      requires Valid() && r.post in posts && r.user in users && (r.post, r.user) !in ReactionPairs(reactions)
      modifies this
      ensures Valid() && id !in old(reactions) && reactions == old(reactions)[id := r]
      ensures users == old(users) && posts == old(posts) && comments == old(comments)
    {
      id := NewId();
      InsertReactionValid(users, posts, comments, reactions, nextId, id, r);
      reactions := reactions[id := r];
    }

    /** `reaction.deleteOne()`. */
    method DeleteReaction(id: Id)
      requires Valid() && id in reactions
      modifies this
      ensures Valid() && reactions == old(reactions) - {id}
      ensures users == old(users) && posts == old(posts) && comments == old(comments) && nextId == old(nextId)
    {
      RemoveReactionValid(users, posts, comments, reactions, nextId, id);
      reactions := reactions - {id};
    }
  }
}
