/** The LikeButton component of the blog's front end: the like count and the
    liked flag of one post, derived from the post's like list, and the click
    handler that likes or unlikes the post and then refreshes the count. The
    stored token and user id, and the server's answers, are inputs: a reply of
    None, or `mutationOk` false, stands for a failed or refused request. */
module LikeButton {
  import opened Prelude

  /** An entry of the like list the server returns, reduced to the field the
      component reads. */
  datatype LikeEntry = LikeEntry(user: UserRef)

  /** The requests the component sends. */
  datatype Request = ListLikes | PostLike | DeleteLike

  /** `data.some(like => like.user === me)`: only a bare id can equal the
      stored id string. */
  function SomeLikedBy(data: seq<LikeEntry>, me: Id): (r: bool)
    ensures r <==> exists i :: 0 <= i < |data| && data[i].user == ById(me)
  {
    if data == [] then false
    else if data[0].user == ById(me) then true
    else
      var r := SomeLikedBy(data[1..], me);
      assert r ==> exists i :: 0 <= i < |data| && data[i].user == ById(me) by {
        if r {
          var i :| 0 <= i < |data[1..]| && data[1..][i].user == ById(me);
          assert data[i + 1].user == ById(me);
        }
      }
      r
  }

  /** A list whose users are all populated objects never shows the post as
      liked, whoever the local user is. */
  lemma {:induction false} PopulatedNeverLiked(data: seq<LikeEntry>, me: Id)
    requires forall i :: 0 <= i < |data| ==> data[i].user.Populated?
    ensures !SomeLikedBy(data, me)
  {
    if data != [] {
      assert forall i :: 0 <= i < |data[1..]| ==> data[1..][i] == data[i + 1];
      PopulatedNeverLiked(data[1..], me);
    }
  }

  /** The component's state. */
  class State {
    const postId: Id
    var likes: int
    var isLiked: bool

    /** The state on mount: no likes, not liked. */
    constructor (postId: Id)
      ensures this.postId == postId && likes == 0 && !isLiked
    {
      this.postId := postId;
      likes := 0;
      isLiked := false;
    }

    /** `fetchLikes`: resets to (0, false), then, with a token and an answer,
        takes the count from the list's length and the flag from whether the
        local user `me` is among its likers. */
    method FetchLikes(hasToken: bool, me: Id, reply: Option<seq<LikeEntry>>) returns (sent: Option<Request>)
      modifies this
      ensures sent == if hasToken then Some(ListLikes) else None
      ensures hasToken && reply.Some? ==>
        likes == |reply.value| && (isLiked <==> exists i :: 0 <= i < |reply.value| && reply.value[i].user == ById(me))
      ensures !(hasToken && reply.Some?) ==> likes == 0 && !isLiked
    {
      isLiked := false;
      likes := 0;
      if !hasToken {
        return None;
      }
      sent := Some(ListLikes);
      if reply.None? {
        return;
      }
      var data := reply.value;
      likes := |data|;
      isLiked := SomeLikedBy(data, me);
    }

    /** `handleLikeClick`: without a token nothing is sent and nothing
        changes. Otherwise it sends DELETE when the post is liked and POST when
        it is not; if that fails nothing changes. On success the flag flips and
        the list is fetched again; the count becomes the new list's length if
        that fetch answers and stays as it was if it does not. The flag is not
        re-derived from the new list. */
    method HandleLikeClick(hasToken: bool, mutationOk: bool, refetch: Option<seq<LikeEntry>>)
      returns (sent: seq<Request>)
      modifies this
      ensures !hasToken ==> sent == [] && likes == old(likes) && isLiked == old(isLiked)
      ensures hasToken ==> |sent| >= 1 && sent[0] == if old(isLiked) then DeleteLike else PostLike
      ensures hasToken && !mutationOk ==> |sent| == 1 && likes == old(likes) && isLiked == old(isLiked)
      ensures hasToken && mutationOk ==>
        && sent == [sent[0], ListLikes]
        && isLiked == !old(isLiked)
        && likes == if refetch.Some? then |refetch.value| else old(likes)
    {
      if !hasToken {
        return [];
      }
      if isLiked {
        sent := [DeleteLike];
        if !mutationOk {
          return;
        }
        isLiked := false;
      } else {
        sent := [PostLike];
        if !mutationOk {
          return;
        }
        isLiked := true;
      }
      sent := sent + [ListLikes];
      if refetch.None? {
        return;
      }
      likes := |refetch.value|;
    }
  }
}
