/** The like controller of the blog service: like and unlike a post, and list
    a post's likes. A like is identified by the (user, post) pair; the post's
    `likes` array mirrors the likes collection. */
module LikeController {
  import opened Prelude
  import opened BlogStore

  /** `Like.findOne({user, post})`: the position of the first like of `user`
      on `post` in the collection's natural order, or None. */
  function FindLike(likes: seq<Like>, user: Id, post: Id): (r: Option<nat>)
    ensures r.Some? ==> r.value < |likes| && likes[r.value].user == user && likes[r.value].post == post
    ensures r.Some? ==> forall k :: 0 <= k < r.value ==> !(likes[k].user == user && likes[k].post == post)
    ensures r.None? <==> forall k :: 0 <= k < |likes| ==> !(likes[k].user == user && likes[k].post == post)
  {
    if likes == [] then None
    else if likes[0].user == user && likes[0].post == post then Some(0)
    else match FindLike(likes[1..], user, post)
      case None => None
      case Some(k) => Some(k + 1)
  }

  /** A like appended after a collection without a like of that (user, post)
      pair is the one `findOne` finds next. */
  lemma {:induction false} FindAppended(likes: seq<Like>, l: Like)
    requires FindLike(likes, l.user, l.post).None?
    ensures FindLike(likes + [l], l.user, l.post) == Some(|likes|)
  {
    if likes != [] {
      assert (likes + [l])[1..] == likes[1..] + [l];
      FindAppended(likes[1..], l);
    }
  }

  /** `Like.find({post})`: the likes of `post`, in the collection's order. */
  function LikesOf(likes: seq<Like>, post: Id): (r: seq<Like>)
    ensures forall l :: l in r <==> l in likes && l.post == post
    ensures |r| <= |likes|
  {
    Filter(likes, (l: Like) => l.post == post)
  }

  /** `getLikesByPost`: the likes of `postId`, in order. (The `populate` call
      that follows the query is not part of this model.) */
  method GetLikesByPost(db: Database, postId: Id) returns (r: seq<Like>)
    ensures r == LikesOf(db.likes, postId)
    ensures forall l :: l in r <==> l in db.likes && l.post == postId
  {
    r := LikesOf(db.likes, postId);
  }

  /** `addLike`: NotFound for a missing post, BadRequest when the requester
      already likes the post, and otherwise a new like at the end of the
      collection whose id is pushed onto the post's `likes`. `newId` is the
      fresh ObjectId the driver assigns. */
  method AddLike(db: Database, postId: Id, requester: Id, newId: Id) returns (r: Reply<Like>)
    requires forall k :: 0 <= k < |db.likes| ==> db.likes[k].id != newId
    modifies db
    ensures postId !in old(db.posts) ==> r == NotFound && unchanged(db)
    ensures postId in old(db.posts) && FindLike(old(db.likes), requester, postId).Some? ==>
      r == BadRequest && unchanged(db)
    ensures postId in old(db.posts) && FindLike(old(db.likes), requester, postId).None? ==>
      && r == Ok(Like(newId, requester, postId))
      && db.likes == old(db.likes) + [r.value]
      && db.posts == old(db.posts)[postId := old(db.posts)[postId].(likes := old(db.posts)[postId].likes + [newId])]
      && db.comments == old(db.comments)
    ensures r.Ok? ==> FindLike(db.likes, requester, postId).Some?
    ensures old(db.Valid()) ==> db.Valid()
  {
    if postId !in db.posts {
      return NotFound;
    }
    var post := db.posts[postId];
    var existing := FindLike(db.likes, requester, postId);
    if existing.Some? {
      return BadRequest;
    }
    var like := Like(newId, requester, postId);
    AddKeepsConsistency(db.posts, db.likes, like);
    db.likes := db.likes + [like];
    post := post.(likes := post.likes + [like.id]);
    db.posts := db.posts[postId := post];
    FindAppended(old(db.likes), like);
    r := Ok(like);
  }

  /** Saving a new like and pushing its id keeps the like invariants. */
  lemma AddKeepsConsistency(posts: map<Id, Post>, likes: seq<Like>, l: Like)
    requires l.post in posts
    requires FindLike(likes, l.user, l.post).None?
    requires forall k :: 0 <= k < |likes| ==> likes[k].id != l.id
    ensures OneLikePerPair(likes) ==> OneLikePerPair(likes + [l])
    ensures DistinctLikeIds(likes) ==> DistinctLikeIds(likes + [l])
    ensures LikesMirrored(posts, likes) ==>
      LikesMirrored(posts[l.post := posts[l.post].(likes := posts[l.post].likes + [l.id])], likes + [l])
  {
    var likes' := likes + [l];
    var posts' := posts[l.post := posts[l.post].(likes := posts[l.post].likes + [l.id])];
    if LikesMirrored(posts, likes) {
      forall p, id | p in posts'
        ensures id in posts'[p].likes <==> HasLike(likes', id, p)
      {
        if HasLike(likes', id, p) {
          var i :| 0 <= i < |likes'| && likes'[i].id == id && likes'[i].post == p;
          if i < |likes| {
            assert likes[i] == likes'[i];
            assert HasLike(likes, id, p);
          }
        }
        if HasLike(likes, id, p) {
          var i :| 0 <= i < |likes| && likes[i].id == id && likes[i].post == p;
          assert likes'[i] == likes[i];
        }
        if p == l.post && id == l.id {
          assert likes'[|likes|] == l;
        }
        if id == l.id && p != l.post {
          assert !HasLike(likes, id, p);
        }
      }
    }
  }

  /** `removeLike`: NotFound when the requester has no like on the post;
      otherwise the like is deleted and every occurrence of its id is filtered
      out of the post's `likes`. The ownership check that follows the lookup
      cannot fail, because the lookup is keyed on the requester, so Forbidden
      is never answered. If the post has gone, reading its `likes` throws after
      the like is deleted: Internal. */
  method RemoveLike(db: Database, postId: Id, requester: Id) returns (r: Reply<()>)
    modifies db
    ensures r != Forbidden
    ensures FindLike(old(db.likes), requester, postId).None? ==> r == NotFound && unchanged(db)
    ensures FindLike(old(db.likes), requester, postId).Some? ==>
      var i := FindLike(old(db.likes), requester, postId).value;
      && db.likes == RemoveAt(old(db.likes), i)
      && db.comments == old(db.comments)
      && (postId in old(db.posts) ==>
            && r == Ok(())
            && db.posts == old(db.posts)[postId := old(db.posts)[postId].(likes := Pull(old(db.posts)[postId].likes, old(db.likes)[i].id))])
      && (postId !in old(db.posts) ==> r == Internal && db.posts == old(db.posts))
    ensures old(db.Valid()) ==> db.Valid()
  {
    var found := FindLike(db.likes, requester, postId);
    if found.None? {
      return NotFound;
    }
    var i := found.value;
    var like := db.likes[i];
    if like.user != requester {
      return Forbidden;
    }
    RemoveKeepsConsistency(db.posts, db.likes, i);
    db.likes := RemoveAt(db.likes, i);
    if postId !in db.posts {
      return Internal;
    }
    var post := db.posts[postId];
    post := post.(likes := Pull(post.likes, like.id));
    db.posts := db.posts[postId := post];
    r := Ok(());
  }

  /** Deleting the i-th like, and filtering its id out of its post's `likes`
      when that post exists, keeps the like invariants. */
  lemma RemoveKeepsConsistency(posts: map<Id, Post>, likes: seq<Like>, i: nat)
    requires i < |likes|
    ensures OneLikePerPair(likes) ==> OneLikePerPair(RemoveAt(likes, i))
    ensures DistinctLikeIds(likes) ==> DistinctLikeIds(RemoveAt(likes, i))
    ensures DistinctLikeIds(likes) && LikesMirrored(posts, likes) ==>
      var p := likes[i].post;
      && (p in posts ==> LikesMirrored(posts[p := posts[p].(likes := Pull(posts[p].likes, likes[i].id))], RemoveAt(likes, i)))
      && (p !in posts ==> LikesMirrored(posts, RemoveAt(likes, i)))
  {
    var rest := RemoveAt(likes, i);
    var l := likes[i];
    var p0 := l.post;
    if DistinctLikeIds(likes) && LikesMirrored(posts, likes) {
      var posts' := if p0 in posts then posts[p0 := posts[p0].(likes := Pull(posts[p0].likes, l.id))] else posts;
      forall p, id | p in posts'
        ensures id in posts'[p].likes <==> HasLike(rest, id, p)
      {
        HasLikeAfterRemove(likes, i, id, p);
        LikeIdOwner(likes, i, p);
      }
    }
  }

  /** With unique ids, the only post that holds a like's id is its own. */
  lemma LikeIdOwner(likes: seq<Like>, i: nat, p: Id)
    requires DistinctLikeIds(likes) && i < |likes|
    ensures HasLike(likes, likes[i].id, p) ==> p == likes[i].post
  {
    if HasLike(likes, likes[i].id, p) {
      var j :| 0 <= j < |likes| && likes[j].id == likes[i].id && likes[j].post == p;
      assert j == i;
    }
  }

  /** After deleting the i-th like, exactly the other likes remain. */
  lemma HasLikeAfterRemove(likes: seq<Like>, i: nat, id: Id, p: Id)
    requires DistinctLikeIds(likes) && i < |likes|
    ensures HasLike(RemoveAt(likes, i), id, p) <==> HasLike(likes, id, p) && id != likes[i].id
  {
    var rest := RemoveAt(likes, i);
    if HasLike(rest, id, p) {
      var k :| 0 <= k < |rest| && rest[k].id == id && rest[k].post == p;
      var j := if k < i then k else k + 1;
      assert likes[j] == rest[k] && j != i;
    }
    if HasLike(likes, id, p) && id != likes[i].id {
      var j :| 0 <= j < |likes| && likes[j].id == id && likes[j].post == p;
      var k := if j < i then j else j - 1;
      assert rest[k] == likes[j];
    }
  }

  /** A like followed by an unlike by the same user restores the post's
      `likes` array and the likes collection. */
  method LikeThenUnlike(db: Database, postId: Id, requester: Id, newId: Id)
    returns (liked: Reply<Like>, unliked: Reply<()>)
    requires db.Valid()
    requires forall k :: 0 <= k < |db.likes| ==> db.likes[k].id != newId
    modifies db
    ensures liked.Ok? ==> unliked == Ok(())
    ensures liked.Ok? ==> db.likes == old(db.likes) && db.posts == old(db.posts) && db.comments == old(db.comments)
    ensures db.Valid()
  {
    ghost var posts0, likes0 := db.posts, db.likes;
    liked := AddLike(db, postId, requester, newId);
    if liked.Ok? {
      assert newId !in posts0[postId].likes;
      FindAppended(likes0, liked.value);
      assert FindLike(db.likes, requester, postId) == Some(|likes0|);
      unliked := RemoveLike(db, postId, requester);
      assert RemoveAt(likes0 + [liked.value], |likes0|) == likes0;
      PullAppended(posts0[postId].likes, newId);
    } else {
      unliked := RemoveLike(db, postId, requester);
    }
  }

  /** On a post nobody likes: the first like succeeds, the second is refused,
      the unlike succeeds and leaves the post as it was, and a second unlike
      finds nothing. */
  method LikeScenario()
    returns (first: Reply<Like>, second: Reply<Like>, unlike: Reply<()>, again: Reply<()>, after: seq<Id>)
    ensures first == Ok(Like("l1", "userA", "P1")) && second == BadRequest
    ensures unlike == Ok(()) && again == NotFound && after == []
  {
    var db := new Database({"P1"});
    first := AddLike(db, "P1", "userA", "l1");
    second := AddLike(db, "P1", "userA", "l2");
    unlike := RemoveLike(db, "P1", "userA");
    PullAppended([], "l1");
    again := RemoveLike(db, "P1", "userA");
    after := db.posts["P1"].likes;
  }
}
