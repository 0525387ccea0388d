/** How the like button's state follows the likes collection. The list the
    button fetches is the like list of its post, so its count is the number
    of those likes. When that list carries bare user ids, the flag is set
    exactly when the server's lookup of the user's like on the post finds
    one; when it carries populated users, the flag is never set. */
module LikeSync {
  import opened Prelude
  import opened BlogStore
  import opened LikeController
  import opened LikeButton

  /** The entries the button receives for the line-119 query result, whose
      `user` fields are bare ids. */
  function Entries(ls: seq<Like>): (r: seq<LikeEntry>)
    ensures |r| == |ls|
    ensures forall i :: 0 <= i < |r| ==> r[i].user == ById(ls[i].user)
  {
    seq(|ls|, i requires 0 <= i < |ls| => LikeEntry(ById(ls[i].user)))
  }

  /** The entries the button would receive if the `populate("user", "email")`
      of line 121 worked: each `user` is a user object. */
  function PopulatedEntries(ls: seq<Like>): (r: seq<LikeEntry>)
    ensures |r| == |ls|
    ensures forall i :: 0 <= i < |r| ==> r[i].user == Populated(ls[i].user)
  {
    seq(|ls|, i requires 0 <= i < |ls| => LikeEntry(Populated(ls[i].user)))
  }

  /** With the populated answer the handler aims at, the button's flag is
      never set, even when the server holds the user's like. */
  lemma PopulatedAnswerNeverLiked(likes: seq<Like>, post: Id, me: Id)
    ensures !SomeLikedBy(PopulatedEntries(LikesOf(likes, post)), me)
  {
    PopulatedNeverLiked(PopulatedEntries(LikesOf(likes, post)), me);
  }

  /** The liked flag the button derives from its post's like list is set
      exactly when `findOne` finds a like of the user on the post, that is,
      exactly when `addLike` would answer BadRequest and `removeLike` would
      delete a like. */
  lemma LikedIffServerFinds(likes: seq<Like>, post: Id, me: Id)
    ensures SomeLikedBy(Entries(LikesOf(likes, post)), me) <==> FindLike(likes, me, post).Some?
  {
    var fetched := LikesOf(likes, post);
    var entries := Entries(fetched);
    if SomeLikedBy(entries, me) {
      var i :| 0 <= i < |entries| && entries[i].user == ById(me);
      assert fetched[i] in fetched;
      var k :| 0 <= k < |likes| && likes[k] == fetched[i];
      assert likes[k].user == me && likes[k].post == post;
    }
    if FindLike(likes, me, post).Some? {
      var k := FindLike(likes, me, post).value;
      assert likes[k] in fetched;
      var i :| 0 <= i < |fetched| && fetched[i] == likes[k];
      assert entries[i].user == ById(me);
    }
  }

  /** After a successful like, the list the button fetches shows the post as
      liked by the user and has grown by one. */
  lemma LikeShowsLiked(likes: seq<Like>, l: Like)
    requires FindLike(likes, l.user, l.post).None?
    ensures SomeLikedBy(Entries(LikesOf(likes + [l], l.post)), l.user)
    ensures |LikesOf(likes + [l], l.post)| == |LikesOf(likes, l.post)| + 1
  {
    FindAppended(likes, l);
    LikedIffServerFinds(likes + [l], l.post, l.user);
    var keep := (x: Like) => x.post == l.post;
    FilterAppend(likes, [l], keep);
    assert Filter([l], keep) == [l];
  }
}
