/** The comment controller of the blog service: list, fetch, add, edit and
    delete comments, keeping each post's `comments` array in step. Each
    operation runs against the database `db` on behalf of the logged-in user
    `requester`. */
module CommentsController {
  import opened Prelude
  import opened BlogStore

  /** The posts after `Post.updateOne({comments: id}, {$pull: {comments: id}})`:
      the id leaves the comment arrays that held it and nothing else moves. */
  function PullComment(posts: map<Id, Post>, id: Id): (r: map<Id, Post>)
    ensures r.Keys == posts.Keys
    ensures forall p | p in posts :: id !in r[p].comments && r[p].likes == posts[p].likes
    ensures forall p | p in posts :: r[p].comments == Pull(posts[p].comments, id)
    ensures forall p | p in posts && id !in posts[p].comments :: r[p] == posts[p]
  {
    var r := map p | p in posts :: posts[p].(comments := Pull(posts[p].comments, id));
    assert forall p | p in posts && id !in posts[p].comments :: r[p] == posts[p] by {
      forall p | p in posts && id !in posts[p].comments {
        PullAbsent(posts[p].comments, id);
      }
    }
    r
  }

  /** `getComments`: exactly the comments whose `post` field is `postId`. */
  method GetComments(db: Database, postId: Id) returns (r: map<Id, Comment>)
    ensures forall id :: id in r <==> id in db.comments && db.comments[id].post == Some(postId)
    ensures forall id | id in r :: r[id] == db.comments[id]
  {
    r := map id | id in db.comments && db.comments[id].post == Some(postId) :: db.comments[id];
  }

  /** `getCommentbyID`: the comment, or NotFound; nothing changes either way. */
  method GetCommentById(db: Database, id: Id) returns (r: Reply<Comment>)
    ensures id in db.comments <==> r.Ok?
    ensures id in db.comments ==> r == Ok(db.comments[id])
    ensures id !in db.comments ==> r == NotFound
  {
    if id !in db.comments {
      return NotFound;
    }
    r := Ok(db.comments[id]);
  }

  /** `addComment`, as written: the new record carries the post under the key
      `postId`, so its `post` field stays unset. `newId` is the fresh ObjectId
      the driver assigns. */
  method AddComment(db: Database, postId: Id, content: string, requester: Id, newId: Id)
    returns (r: Reply<Comment>)
    requires newId !in db.comments
    modifies db
    ensures postId !in old(db.posts) ==> r == NotFound && unchanged(db)
    ensures postId in old(db.posts) ==>
      && r == Ok(Comment(content, requester, None, Some(postId)))
      && db.comments == old(db.comments)[newId := r.value]
      && db.posts == old(db.posts)[postId := old(db.posts)[postId].(comments := old(db.posts)[postId].comments + [newId])]
      && db.likes == old(db.likes)
    ensures old(db.Valid()) ==> db.Valid()
  {
    if postId !in db.posts {
      return NotFound;
    }
    var post := db.posts[postId];
    var comment := Comment(content, requester, None, Some(postId));
    db.comments := db.comments[newId := comment];
    post := post.(comments := post.comments + [newId]);
    db.posts := db.posts[postId := post];
    r := Ok(comment);
    assert old(db.Valid()) ==> newId !in old(db.posts)[postId].comments;
  }

  /** `addComment` with the record built under the key `post`, the field the
      list query reads. It keeps the two-way post/comment link. */
  method AddLinkedComment(db: Database, postId: Id, content: string, requester: Id, newId: Id)
    returns (r: Reply<Comment>)
    requires newId !in db.comments
    modifies db
    ensures postId !in old(db.posts) ==> r == NotFound && unchanged(db)
    ensures postId in old(db.posts) ==>
      && r == Ok(Comment(content, requester, Some(postId), None))
      && db.comments == old(db.comments)[newId := r.value]
      && db.posts == old(db.posts)[postId := old(db.posts)[postId].(comments := old(db.posts)[postId].comments + [newId])]
      && db.likes == old(db.likes)
    ensures old(db.Valid()) ==> db.Valid()
    ensures old(db.Valid() && CommentsLinked(db.posts, db.comments)) ==> CommentsLinked(db.posts, db.comments)
  {
    if postId !in db.posts {
      return NotFound;
    }
    var post := db.posts[postId];
    var comment := Comment(content, requester, Some(postId), None);
    db.comments := db.comments[newId := comment];
    post := post.(comments := post.comments + [newId]);
    db.posts := db.posts[postId := post];
    r := Ok(comment);
    assert old(db.Valid()) ==> newId !in old(db.posts)[postId].comments;
  }

  /** `editComment`: NotFound for an unknown id, Forbidden unless the requester
      is the author, and otherwise only the content changes. */
  method EditComment(db: Database, id: Id, content: string, requester: Id) returns (r: Reply<Comment>)
    modifies db
    ensures id !in old(db.comments) ==> r == NotFound && unchanged(db)
    ensures id in old(db.comments) && requester != old(db.comments[id]).author ==> r == Forbidden && unchanged(db)
    ensures id in old(db.comments) && requester == old(db.comments[id]).author ==>
      && r == Ok(old(db.comments[id]).(content := content))
      && db.comments == old(db.comments)[id := r.value]
      && db.posts == old(db.posts) && db.likes == old(db.likes)
    ensures old(db.Valid()) ==> db.Valid()
    ensures old(CommentsLinked(db.posts, db.comments)) ==> CommentsLinked(db.posts, db.comments)
  {
    if id !in db.comments {
      return NotFound;
    }
    var comment := db.comments[id];
    if requester != comment.author {
      return Forbidden;
    }
    comment := comment.(content := content);
    db.comments := db.comments[id := comment];
    r := Ok(comment);
  }

  /** `comment.deleteOne()` followed by the `$pull` of its id from the posts. */
  method RemoveComment(db: Database, id: Id)
    modifies db
    ensures db.comments == old(db.comments) - {id}
    ensures db.posts == PullComment(old(db.posts), id)
    ensures db.likes == old(db.likes)
    ensures old(db.Valid()) ==> db.Valid()
    ensures old(CommentsLinked(db.posts, db.comments)) ==> CommentsLinked(db.posts, db.comments)
  {
    PullKeepsConsistency(db.posts, db.comments, db.likes, id);
    db.comments := db.comments - {id};
    db.posts := PullComment(db.posts, id);
  }

  /** Deleting a comment together with the `$pull` of its id keeps every
      consistency condition, the two-way post/comment link included. */
  lemma PullKeepsConsistency(posts: map<Id, Post>, comments: map<Id, Comment>, likes: seq<Like>, id: Id)
    ensures NoDanglingComments(posts, comments) ==> NoDanglingComments(PullComment(posts, id), comments - {id})
    ensures CommentInOnePost(posts) ==> CommentInOnePost(PullComment(posts, id))
    ensures LikesMirrored(posts, likes) ==> LikesMirrored(PullComment(posts, id), likes)
    ensures CommentsLinked(posts, comments) ==> CommentsLinked(PullComment(posts, id), comments - {id})
  {
    var r := PullComment(posts, id);
    if CommentsLinked(posts, comments) {
      forall p, x | p in r
        ensures x in r[p].comments <==> LinkedTo(comments - {id}, x, p)
      {
        assert x in r[p].comments <==> x in posts[p].comments && x != id;
      }
    }
  }

  /** `deleteComment`, as written: the ownership check compares the requester
      with the comment's own id, not with its author. */
  method DeleteComment(db: Database, id: Id, requester: Id) returns (r: Reply<()>)
    modifies db
    ensures id !in old(db.comments) ==> r == NotFound && unchanged(db)
    ensures id in old(db.comments) && requester != id ==> r == Forbidden && unchanged(db)
    ensures id in old(db.comments) && requester == id ==>
      && r == Ok(())
      && db.comments == old(db.comments) - {id}
      && db.posts == PullComment(old(db.posts), id)
      && db.likes == old(db.likes)
    ensures old(db.Valid()) ==> db.Valid()
  {
    if id !in db.comments {
      return NotFound;
    }
    if requester != id {
      return Forbidden;
    }
    RemoveComment(db, id);
    r := Ok(());
  }

  /** `deleteComment` with the ownership check against the author: it
      succeeds exactly for the comment's author. */
  method DeleteOwnComment(db: Database, id: Id, requester: Id) returns (r: Reply<()>)
    modifies db
    ensures id !in old(db.comments) ==> r == NotFound && unchanged(db)
    ensures id in old(db.comments) ==> (r == Ok(()) <==> requester == old(db.comments[id]).author)
    ensures id in old(db.comments) && requester != old(db.comments[id]).author ==> r == Forbidden && unchanged(db)
    ensures r == Ok(()) ==>
      && db.comments == old(db.comments) - {id}
      && db.posts == PullComment(old(db.posts), id)
      && db.likes == old(db.likes)
    ensures old(db.Valid()) ==> db.Valid()
    ensures old(CommentsLinked(db.posts, db.comments)) ==> CommentsLinked(db.posts, db.comments)
  {
    if id !in db.comments {
      return NotFound;
    }
    if requester != db.comments[id].author {
      return Forbidden;
    }
    RemoveComment(db, id);
    r := Ok(());
  }

  /** On a consistent database the `$pull` touches exactly the one post that
      held the comment, as `updateOne` does. */
  lemma PullCommentTouchesOnePost(posts: map<Id, Post>, p: Id, id: Id)
    requires CommentInOnePost(posts)
    requires p in posts && id in posts[p].comments
    ensures forall q | q in posts && q != p :: PullComment(posts, id)[q] == posts[q]
    ensures PullComment(posts, id)[p].comments == Pull(posts[p].comments, id)
  {
  }

  /** An edit followed by a fetch of the same comment returns the new content. */
  method EditThenGet(db: Database, id: Id, content: string, requester: Id)
    returns (edited: Reply<Comment>, fetched: Reply<Comment>)
    modifies db
    ensures edited.Ok? ==> id in old(db.comments) && fetched.Ok? && fetched.value.content == content
    ensures edited.Ok? ==> fetched.value.author == old(db.comments[id]).author && fetched.value.post == old(db.comments[id]).post
  {
    edited := EditComment(db, id, content, requester);
    fetched := GetCommentById(db, id);
  }

  /** A post without comments receives "hello" from userA; userB may not
      delete it; as written, userA may not either, because the check compares
      userA with the comment id; with the author check userA deletes it and the
      post's array is empty again. */
  method DeleteScenario()
    returns (added: Reply<Comment>, size: nat, byOther: Reply<()>, byAuthor: Reply<()>, byOwner: Reply<()>, left: nat)
    ensures added == Ok(Comment("hello", "userA", None, Some("P1"))) && size == 1
    ensures byOther == Forbidden && byAuthor == Forbidden
    ensures byOwner == Ok(()) && left == 0
  {
    var db := new Database({"P1"});
    added := AddComment(db, "P1", "hello", "userA", "c1");
    size := |db.posts["P1"].comments|;
    byOther := DeleteOwnComment(db, "c1", "userB");
    byAuthor := DeleteComment(db, "c1", "userA");
    byOwner := DeleteOwnComment(db, "c1", "userA");
    left := |db.posts["P1"].comments|;
  }

  /** A comment added as written is in the post's array but not in the post's
      comment list; one added under `post` is in both. */
  method ListScenario()
    returns (inArray: bool, listed: map<Id, Comment>, linkedInArray: bool, linked: map<Id, Comment>)
    ensures inArray && listed == map[]
    ensures linkedInArray && linked.Keys == {"c2"}
  {
    var db := new Database({"P1"});
    var added := AddComment(db, "P1", "hello", "userA", "c1");
    inArray := "c1" in db.posts["P1"].comments;
    listed := GetComments(db, "P1");
    var db2 := new Database({"P1"});
    added := AddLinkedComment(db2, "P1", "hello", "userA", "c2");
    linkedInArray := "c2" in db2.posts["P1"].comments;
    linked := GetComments(db2, "P1");
  }
}
