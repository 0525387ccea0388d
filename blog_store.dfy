/** The documents the comment and like controllers work on, the database that
    holds them, and the consistency conditions between a post and the comments
    and likes that point back at it. */
module BlogStore {
  import opened Prelude

  /** A post document, reduced to its two back-reference arrays: the ids of its
      comments and the ids of its likes, in the order they were pushed. */
  datatype Post = Post(comments: seq<Id>, likes: seq<Id>)

  /** A comment document. `post` is the field the list query filters on;
      `postId` is the key under which the add operation records the post. */
  datatype Comment = Comment(content: string, author: Id, post: Option<Id>, postId: Option<Id>)

  /** A like document: one user's endorsement of one post. */
  datatype Like = Like(id: Id, user: Id, post: Id)

  /** The outcome of a controller operation: the payload of a 2xx answer, or
      the error class of a 404, 403, 400 or 500 answer. */
  datatype Reply<T> = Ok(value: T) | NotFound | Forbidden | BadRequest | Internal

  /** The likes collection never holds two likes of one user on one post. */
  ghost predicate OneLikePerPair(likes: seq<Like>) {
    forall i, j :: 0 <= i < j < |likes| && likes[i].user == likes[j].user ==> likes[i].post != likes[j].post
  }

  /** Like ids are unique. */
  ghost predicate DistinctLikeIds(likes: seq<Like>) {
    forall i, j :: 0 <= i < j < |likes| ==> likes[i].id != likes[j].id
  }

  /** Some like in the collection has id `id` and belongs to post `p`. */
  ghost predicate HasLike(likes: seq<Like>, id: Id, p: Id) {
    exists i :: 0 <= i < |likes| && likes[i].id == id && likes[i].post == p
  }

  /** An id is in a post's `likes` array exactly when a like with that id
      exists and belongs to that post. */
  ghost predicate LikesMirrored(posts: map<Id, Post>, likes: seq<Like>) {
    forall p, id | p in posts :: id in posts[p].likes <==> HasLike(likes, id, p)
  }

  /** Every id in a post's `comments` array names an existing comment. */
  ghost predicate NoDanglingComments(posts: map<Id, Post>, comments: map<Id, Comment>) {
    forall p, id | p in posts && id in posts[p].comments :: id in comments
  }

  /** A comment id is held by at most one post. */
  ghost predicate CommentInOnePost(posts: map<Id, Post>) {
    forall p, q, id | p in posts && q in posts && id in posts[p].comments && id in posts[q].comments :: p == q
  }

  /** Comment `id` exists and its `post` field names post `p`. */
  ghost predicate LinkedTo(comments: map<Id, Comment>, id: Id, p: Id) {
    id in comments && comments[id].post == Some(p)
  }

  /** The two-way link between posts and comments that the blog's design asks
      for: an id is in a post's `comments` array exactly when that comment
      exists and its `post` field names the post. */
  ghost predicate CommentsLinked(posts: map<Id, Post>, comments: map<Id, Comment>) {
    forall p, id | p in posts :: id in posts[p].comments <==> LinkedTo(comments, id, p)
  }

  /** `s` without its element at index `i`: `deleteOne` on the i-th like. */
  function RemoveAt<T>(s: seq<T>, i: nat): (r: seq<T>)
    requires i < |s|
    ensures |r| == |s| - 1
    ensures forall k :: 0 <= k < |r| ==> r[k] == s[if k < i then k else k + 1]
  {
    s[..i] + s[i + 1..]
  }

  /** The posts, comments and likes collections. */
  class Database {
    var posts: map<Id, Post>
    var comments: map<Id, Comment>
    var likes: seq<Like>

    /** The consistency the controllers keep: no dangling comment ids, each
        comment id under one post, one like per (user, post), unique like ids,
        and post `likes` arrays that mirror the likes collection. */
    ghost predicate Valid()
      reads this
    {
      && NoDanglingComments(posts, comments)
      && CommentInOnePost(posts)
      && OneLikePerPair(likes)
      && DistinctLikeIds(likes)
      && LikesMirrored(posts, likes)
    }

    /** A database holding the posts `postIds`, each without comments or likes,
        and nothing else. Posts are created elsewhere (the post controller is
        not part of this model). */
    constructor (postIds: set<Id>)
      ensures Valid()
      ensures posts == map p | p in postIds :: Post([], [])
      ensures comments == map[] && likes == []
    {
      posts := map p | p in postIds :: Post([], []);
      comments := map[];
      likes := [];
    }
  }
}
