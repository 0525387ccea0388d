/** The CommentSection component of the blog's front end: the local list of
    one post's comments, the input box, the edit mode, the sort option, and the
    handlers that talk to the comment endpoints and update that state. The
    stored token and user id, and the server's answers, are inputs to the
    handlers: `hasToken` says whether a token was stored, `me` is the stored
    user id, and a reply of None stands for a failed or refused request. */
module CommentSection {
  import opened Prelude

  /** The guards' `id !== author` is false, so the guard passes, only for the
      bare id of the local user. An entry the component appended itself has
      the bare id; one the list endpoint answered has its author populated. */
  predicate IsLocalAuthor(me: Id, author: UserRef) {
    author == ById(me)
  }

  /** A comment as the component holds it. Timestamps are integers. */
  datatype ClientComment = ClientComment(id: Id, content: string, author: UserRef, createdAt: int, post: Option<Id>)

  /** The requests the component sends. */
  datatype Request = ListComments | PostComment(content: string) | PutComment(id: Id, content: string) | DeleteComment(id: Id)

  /** The comparator handed to `sort` in `renderComments`: negative when `a`
      goes first, positive when `b` does, zero when either may. */
  function Compare(a: ClientComment, b: ClientComment, option: string): (r: int)
    ensures option == "newest" ==> (r < 0 <==> a.createdAt > b.createdAt) && (r > 0 <==> a.createdAt < b.createdAt)
    ensures option == "oldest" ==> (r < 0 <==> a.createdAt < b.createdAt) && (r > 0 <==> a.createdAt > b.createdAt)
    ensures option != "newest" && option != "oldest" ==> r == 0
  {
    if option == "newest" then b.createdAt - a.createdAt
    else if option == "oldest" then a.createdAt - b.createdAt
    else 0
  }

  /** `s` is in comparator order: no later element should go before an
      earlier one. */
  ghost predicate Ordered(s: seq<ClientComment>, option: string) {
    forall i, j :: 0 <= i < j < |s| ==> Compare(s[i], s[j], option) <= 0
  }

  /** The comparator orders consistently: "may go first" is transitive. */
  lemma CompareTransitive(a: ClientComment, b: ClientComment, c: ClientComment, option: string)
    requires Compare(a, b, option) <= 0 && Compare(b, c, option) <= 0
    ensures Compare(a, c, option) <= 0
  {
  }

  /** An element that may precede the head of an ordered list may precede all
      of it. */
  lemma OrderedCons(y: ClientComment, t: seq<ClientComment>, option: string)
    requires Ordered(t, option)
    requires t == [] || Compare(y, t[0], option) <= 0
    ensures Ordered([y] + t, option)
  {
    var s := [y] + t;
    forall i, j | 0 <= i < j < |s| ensures Compare(s[i], s[j], option) <= 0 {
      if i == 0 && j > 1 {
        CompareTransitive(y, t[0], t[j - 1], option);
      }
    }
  }

  /** `x` placed into the ordered list `s` ahead of the first element it may
      precede. */
  function Insert(x: ClientComment, s: seq<ClientComment>, option: string): (r: seq<ClientComment>)
    requires Ordered(s, option)
    ensures multiset(r) == multiset(s) + multiset{x} && |r| == |s| + 1
    ensures Ordered(r, option)
    ensures r[0] == x || (s != [] && r[0] == s[0])
  {
    if s == [] || Compare(x, s[0], option) <= 0 then
      OrderedCons(x, s, option);
      [x] + s
    else
      assert s == [s[0]] + s[1..];
      var t := Insert(x, s[1..], option);
      assert Compare(s[0], t[0], option) <= 0;
      OrderedCons(s[0], t, option);
      [s[0]] + t
  }

  /** The copy of the list that `renderComments` sorts and displays: the same
      comments, newest first for "newest", oldest first for "oldest", and in
      list order for any other option (the comparator answers 0). */
  function SortComments(cs: seq<ClientComment>, option: string): (r: seq<ClientComment>)
    ensures multiset(r) == multiset(cs) && |r| == |cs|
    ensures option == "newest" ==> forall i, j :: 0 <= i < j < |r| ==> r[i].createdAt >= r[j].createdAt
    ensures option == "oldest" ==> forall i, j :: 0 <= i < j < |r| ==> r[i].createdAt <= r[j].createdAt
    ensures option != "newest" && option != "oldest" ==> r == cs
  {
    if cs == [] then []
    else
      assert cs == [cs[0]] + cs[1..];
      Insert(cs[0], SortComments(cs[1..], option), option)
  }

  /** The comments whose id is not `id`, in their original order: the
      `.filter` in `handleDeleteComment`. */
  function WithoutComment(cs: seq<ClientComment>, id: Id): (r: seq<ClientComment>)
    ensures forall c :: c in r <==> c in cs && c.id != id
    ensures |r| <= |cs|
  {
    Filter(cs, (c: ClientComment) => c.id != id)
  }

  /** Removing a comment keeps the comments before and after it in order. */
  lemma WithoutCommentKeepsOrder(a: seq<ClientComment>, c: ClientComment, b: seq<ClientComment>)
    ensures WithoutComment(a + [c] + b, c.id) == WithoutComment(a, c.id) + WithoutComment(b, c.id)
  {
    var keep := (x: ClientComment) => x.id != c.id;
    var ac := a + [c];
    FilterAppend(ac, b, keep);
    FilterAppend(a, [c], keep);
    var fc := Filter([c], keep);
    assert fc == [];
    assert Filter(ac, keep) == Filter(a, keep);
  }

  /** The characters JavaScript's `String.prototype.trim` removes: the
      ECMAScript WhiteSpace and LineTerminator code points. */
  predicate IsJsSpace(c: char) {
    || ('\U{9}' <= c <= '\U{D}')
    || c == '\U{20}' || c == '\U{A0}' || c == '\U{1680}'
    || ('\U{2000}' <= c <= '\U{200A}')
    || c == '\U{2028}' || c == '\U{2029}' || c == '\U{202F}' || c == '\U{205F}' || c == '\U{3000}' || c == '\U{FEFF}'
  }

  /** `s` without its leading white space. */
  function TrimStart(s: string): (r: string)
    ensures |r| <= |s| && r == s[|s| - |r|..]
    ensures forall k :: 0 <= k < |s| - |r| ==> IsJsSpace(s[k])
    ensures r == [] || !IsJsSpace(r[0])
  {
    if s != [] && IsJsSpace(s[0]) then TrimStart(s[1..]) else s
  }

  /** `s` without its trailing white space. */
  function TrimEnd(s: string): (r: string)
    ensures |r| <= |s| && r == s[..|r|]
    ensures forall k :: |r| <= k < |s| ==> IsJsSpace(s[k])
    ensures r == [] || !IsJsSpace(r[|r| - 1])
  {
    if s != [] && IsJsSpace(s[|s| - 1]) then TrimEnd(s[..|s| - 1]) else s
  }

  /** `String.prototype.trim`: empty exactly when every character of `s` is
      white space. */
  function Trim(s: string): (r: string)
    ensures r == [] <==> forall k :: 0 <= k < |s| ==> IsJsSpace(s[k])
    ensures r == [] || (!IsJsSpace(r[0]) && !IsJsSpace(r[|r| - 1]))
  {
    TrimEnd(TrimStart(s))
  }

  /** The component's state. */
  class State {
    const postId: Id
    var comments: seq<ClientComment>
    var newComment: string
    var editComment: Option<ClientComment>
    var hideComment: bool
    var sortOption: string
    var loading: bool

    /** The state on mount. */
    constructor (postId: Id)
      ensures this.postId == postId
      ensures comments == [] && newComment == "" && editComment == None
      ensures !hideComment && sortOption == "newest" && !loading
    {
      this.postId := postId;
      comments := [];
      newComment := "";
      editComment := None;
      hideComment := false;
      sortOption := "newest";
      loading := false;
    }

    /** `fetchComments`: without a token nothing is sent and the list stays;
        otherwise the list becomes the server's, if it answers. Loading ends
        false either way. */
    method FetchComments(hasToken: bool, reply: Option<seq<ClientComment>>) returns (sent: Option<Request>)
      modifies this`comments, this`loading
      ensures sent == if hasToken then Some(ListComments) else None
      ensures comments == if hasToken && reply.Some? then reply.value else old(comments)
      ensures !loading
    {
      loading := true;
      if !hasToken {
        loading := false;
        return None;
      }
      sent := Some(ListComments);
      if reply.Some? {
        comments := reply.value;
      }
      loading := false;
    }

    /** `handleAddComment`: posts the input; on success appends the returned
        comment, with the local user as author, and clears the input. */
    method HandleAddComment(hasToken: bool, me: Id, reply: Option<ClientComment>) returns (sent: Option<Request>)
      modifies this`comments, this`newComment, this`loading
      ensures sent == if hasToken then Some(PostComment(old(newComment))) else None
      ensures hasToken && reply.Some? ==>
        comments == old(comments) + [reply.value.(author := ById(me))] && newComment == ""
      ensures !(hasToken && reply.Some?) ==> comments == old(comments) && newComment == old(newComment)
      ensures !loading
    {
      loading := true;
      if !hasToken {
        loading := false;
        return None;
      }
      sent := Some(PostComment(newComment));
      if reply.None? {
        loading := false;
        return;
      }
      var data := reply.value;
      comments := comments + [ClientComment(data.id, data.content, ById(me), data.createdAt, data.post)];
      newComment := "";
      loading := false;
    }

    /** `handleEditComment`: enter edit mode on `c` with its text in the input. */
    method HandleEditComment(c: ClientComment)
      modifies this`editComment, this`newComment
      ensures editComment == Some(c) && newComment == c.content
    {
      editComment := Some(c);
      newComment := c.content;
    }

    /** The Cancel button: leave edit mode and clear the input. */
    method CancelEdit()
      modifies this`editComment, this`newComment
      ensures editComment == None && newComment == ""
    {
      editComment := None;
      newComment := "";
    }

    /** Whether `handleUpdateComment` gets as far as sending its request: a
        token, a comment in edit mode, and the local user as its author. */
    predicate MayUpdate(hasToken: bool, me: Id)
      reads this
    {
      hasToken && editComment.Some? && IsLocalAuthor(me, editComment.value.author)
    }

    /** `handleUpdateComment`: refused before any request without a token,
        outside edit mode (reading the missing comment throws) and for a
        comment of another author, which includes every comment whose author
        the list endpoint populated; otherwise puts the input and on success
        APPENDS the returned comment, keeping the old entry, then leaves edit
        mode and clears the input. */
    method HandleUpdateComment(hasToken: bool, me: Id, reply: Option<ClientComment>) returns (sent: Option<Request>)
      modifies this`comments, this`newComment, this`editComment, this`loading
      ensures sent.Some? <==> old(MayUpdate(hasToken, me))
      ensures old(editComment).Some? && old(editComment).value.author.Populated? ==> sent == None
      ensures sent.Some? ==> sent.value == PutComment(old(editComment).value.id, old(newComment))
      ensures old(MayUpdate(hasToken, me)) && reply.Some? ==>
        && comments == old(comments) + [reply.value.(author := ById(me))]
        && |comments| == |old(comments)| + 1
        && editComment == None && newComment == ""
      ensures !(old(MayUpdate(hasToken, me)) && reply.Some?) ==>
        comments == old(comments) && newComment == old(newComment) && editComment == old(editComment)
      ensures !loading
    {
      loading := true;
      if !hasToken {
        loading := false;
        return None;
      }
      if editComment.None? {
        loading := false;
        return None;
      }
      if !IsLocalAuthor(me, editComment.value.author) {
        loading := false;
        return None;
      }
      sent := Some(PutComment(editComment.value.id, newComment));
      if reply.None? {
        loading := false;
        return;
      }
      var data := reply.value;
      comments := comments + [ClientComment(data.id, data.content, ById(me), data.createdAt, data.post)];
      editComment := None;
      newComment := "";
      loading := false;
    }

    /** The form's submit: the update handler in edit mode and the add handler
        otherwise, so a PUT is only ever sent for the comment being edited.
        Either way a success appends one entry by the local user and leaves
        an empty input outside edit mode, and anything else changes nothing. */
    method Submit(hasToken: bool, me: Id, reply: Option<ClientComment>) returns (sent: Option<Request>)
      modifies this`comments, this`newComment, this`editComment, this`loading
      ensures old(editComment).None? ==> sent == if hasToken then Some(PostComment(old(newComment))) else None
      ensures old(editComment).Some? ==>
        sent == if hasToken && IsLocalAuthor(me, old(editComment).value.author)
                then Some(PutComment(old(editComment).value.id, old(newComment))) else None
      ensures sent.Some? && reply.Some? ==>
        comments == old(comments) + [reply.value.(author := ById(me))] && newComment == "" && editComment == None
      ensures !(sent.Some? && reply.Some?) ==>
        comments == old(comments) && newComment == old(newComment) && editComment == old(editComment)
      ensures !loading
    {
      if editComment.Some? {
        sent := HandleUpdateComment(hasToken, me, reply);
      } else {
        sent := HandleAddComment(hasToken, me, reply);
      }
    }

    /** `handleDeleteComment`: refused before any request without a token or
        when the local user is not `commentAuthor`, which includes every
        comment whose author the list endpoint populated; on success every
        entry with id `commentId` leaves the list and the others keep their
        order. */
    method HandleDeleteComment(commentId: Id, commentAuthor: UserRef, hasToken: bool, me: Id, ok: bool)
      returns (sent: Option<Request>)
      modifies this`comments
      ensures sent == if hasToken && IsLocalAuthor(me, commentAuthor) then Some(DeleteComment(commentId)) else None
      ensures commentAuthor.Populated? ==> sent == None
      ensures comments == if sent.Some? && ok then WithoutComment(old(comments), commentId) else old(comments)
    {
      if !hasToken {
        return None;
      }
      if !IsLocalAuthor(me, commentAuthor) {
        return None;
      }
      sent := Some(DeleteComment(commentId));
      if ok {
        comments := WithoutComment(comments, commentId);
      }
    }

    /** The text area's `onChange`. */
    method OnInput(text: string)
      modifies this`newComment
      ensures newComment == text
    {
      newComment := text;
    }

    /** `toggleShowComments`. */
    method ToggleShowComments()
      modifies this`hideComment
      ensures hideComment == !old(hideComment)
    {
      hideComment := !hideComment;
    }

    /** The sort selector's `onChange`. */
    method OnSortChange(option: string)
      modifies this`sortOption
      ensures sortOption == option
    {
      sortOption := option;
    }

    /** The list `renderComments` displays: a sorted copy, so the state's own
        list is left as it is. */
    function RenderComments(): (view: seq<ClientComment>)
      reads this
      ensures multiset(view) == multiset(comments)
      ensures sortOption == "newest" ==> forall i, j :: 0 <= i < j < |view| ==> view[i].createdAt >= view[j].createdAt
      ensures sortOption == "oldest" ==> forall i, j :: 0 <= i < j < |view| ==> view[i].createdAt <= view[j].createdAt
    {
      SortComments(comments, sortOption)
    }

    /** The submit button is enabled exactly when the input holds a character
        other than white space and nothing is loading. */
    function SubmitEnabled(): (r: bool)
      reads this
      ensures r <==> !loading && exists k :: 0 <= k < |newComment| && !IsJsSpace(newComment[k])
    {
      !(Trim(newComment) == "" || loading)
    }
  }

  /** userA's own comment, as the list endpoint answers it with the author
      populated, can be neither updated nor deleted from the component; a
      comment the component appended itself, with the bare id, can be. */
  method OwnCommentScenario()
    returns (fetchedPut: Option<Request>, fetchedDelete: Option<Request>, appendedDelete: Option<Request>, left: seq<ClientComment>)
    ensures fetchedPut == None && fetchedDelete == None
    ensures appendedDelete == Some(DeleteComment("c2"))
    ensures left == [ClientComment("c1", "hi", Populated("userA"), 1, Some("P1"))]
  {
    var st := new State("P1");
    var own := ClientComment("c1", "hi", Populated("userA"), 1, Some("P1"));
    var sent := st.FetchComments(true, Some([own]));
    st.HandleEditComment(own);
    fetchedPut := st.Submit(true, "userA", Some(own));
    fetchedDelete := st.HandleDeleteComment(own.id, own.author, true, "userA", true);
    st.CancelEdit();
    st.OnInput("again");
    var answer := ClientComment("c2", "again", Populated("userA"), 2, Some("P1"));
    sent := st.Submit(true, "userA", Some(answer));
    var appended := st.comments[1];
    assert st.comments == [own] + [appended] + [];
    WithoutCommentKeepsOrder([own], appended, []);
    appendedDelete := st.HandleDeleteComment(appended.id, appended.author, true, "userA", true);
    left := st.comments;
  }
}
