# Blog comments and likes, modelled in Dafny

This project models the comment and like part of a full-stack blog. It has two sides.

- **The back end** is an Express service over MongoDB. Its comment controller lists, fetches, adds, edits and deletes the comments of a post. Its like controller adds and removes likes and lists a post's likes. A post keeps two back-reference arrays, `comments` and `likes`, which the controllers update together with the comment and like collections.
- **The front end** is React. `CommentSection` holds one post's comment list, its input box, edit mode and sort option. `LikeButton` holds a post's like count and the user's liked flag.

What is modelled, module by module:

- `Prelude` holds the shared pieces: identifiers, `Option`, and the order-keeping `Filter`. Both `Array.prototype.filter` and an equality `find` behave as `Filter`. `Pull` is the filter that removes an id from a back-reference array.
- `BlogStore` holds the documents and the `Database` class with its three collections. Posts and comments are maps keyed by id. The likes collection is a sequence in natural order, because `findOne` returns the first match in that order. `Database.Valid` states the consistency the controllers keep:
  - no dangling comment ids;
  - each comment id belongs to at most one post;
  - at most one like per (user, post) pair;
  - like ids are unique;
  - a post's `likes` array mirrors the likes collection.

  `CommentsLinked` states the two-way post/comment link that the design intends. The code as written does not keep that link.
- `CommentsController` and `LikeController` hold the handlers. Each is a method on the database that returns a `Reply`: the 2xx payload, or the kind of a 404, 403, 400 or 500 answer. Each request handler (the list and get operations, add, edit and delete of comments, add and remove of likes) states the whole new state of the database for every branch, and each handler that changes state proves that `Valid` is preserved. The round-trip and scenario methods beside them state only the outcome they exhibit. The requester is the `req.user.id` of the call. A fresh ObjectId is a parameter that must not already be in use.
- `CommentSection` and `LikeButton` hold the components as classes whose fields are the `useState` variables. Each handler is a method. The inputs a handler would read from the browser or the network are its parameters:
  - `hasToken` and `me` are the stored token and user id;
  - a reply of `None`, or `ok`/`mutationOk` false, stands for a failed or refused request.

  Each handler returns the requests it sends. Sorting, the delete filter, JavaScript's `trim` and `.some` are pure functions.
- `LikeSync` connects the two sides. Suppose the server answers the bare result of its like query, with `user` as an id. Then the liked flag the button derives is set exactly when the server's `findOne` finds the user's like. If the server answers with `user` populated, as the handler aims to, the flag is never set. `Prelude.UserRef` marks each user field as a bare id or a populated object.

The two code defects below are modelled as written, together with corrected versions (see Findings).

## Model

| member | source | states |
|---|---|---|
| Prelude.Filter | react-blog-backend/blog-service/controllers/likeController.js:119 | the result never grows, and an element is in it exactly when it is in the input and passes the test |
| Prelude.FilterAppend | react-blog-frontend/src/components/CommentSection/CommentSection.jsx:246-248 | filtering a concatenation is the concatenation of the filtered parts, so the elements kept stay in their relative order |
| Prelude.FilterKeepsAll | react-blog-frontend/src/components/CommentSection/CommentSection.jsx:246-248 | a filter that every element passes returns its input unchanged |
| Prelude.Pull | react-blog-backend/blog-service/controllers/likeController.js:104-106 | the id is gone from the result, and every other id that was in the list is still in it |
| Prelude.PullAbsent | react-blog-backend/blog-service/controllers/commentsController.js:160-163 | pulling an id the array does not hold leaves the array unchanged |
| Prelude.PullAppended | react-blog-backend/blog-service/controllers/likeController.js:71-107 | pulling an id just pushed onto an array that did not hold it gives back the original array |
| Prelude.PullKeepsOrder | react-blog-backend/blog-service/controllers/commentsController.js:160-163 | pulling an id removes it and leaves everything before and after it in order |
| BlogStore.RemoveAt | react-blog-backend/blog-service/controllers/likeController.js:101 | deleting one like document leaves a collection one shorter, with every other like in its old order |
| CommentsController.PullComment | react-blog-backend/blog-service/controllers/commentsController.js:160-163 | after the `$pull` no post holds the id, each post's comment array is the pulled array, likes do not move, and posts without the id are unchanged |
| CommentsController.PullCommentTouchesOnePost | react-blog-backend/blog-service/controllers/commentsController.js:160-163 | when each comment id is in at most one post, the pull from all posts changes only the post holding the id, as `updateOne` does |
| CommentsController.GetComments | react-blog-backend/blog-service/controllers/commentsController.js:69-79 | a comment is listed exactly when its `post` field names the post, and it is listed as stored |
| CommentsController.GetCommentById | react-blog-backend/blog-service/controllers/commentsController.js:82-92 | the comment is returned exactly when it exists; NotFound otherwise |
| CommentsController.AddComment | react-blog-backend/blog-service/controllers/commentsController.js:95-119 | NotFound with nothing changed for a missing post; otherwise a new comment by the requester, recorded under `postId` with `post` unset, and its id pushed onto the post's array; the consistency invariant is kept |
| CommentsController.AddLinkedComment | react-blog-backend/blog-service/controllers/commentsController.js:95-119 | the add with the record's post under `post`: the same state change, and it also keeps the two-way post/comment link |
| CommentsController.EditComment | react-blog-backend/blog-service/controllers/commentsController.js:122-143 | NotFound, or Forbidden with nothing changed unless the requester is the author; otherwise only the content changes; both invariants are kept |
| CommentsController.RemoveComment | react-blog-backend/blog-service/controllers/commentsController.js:159-163 | the comment leaves the collection, its id is pulled from the posts, and likes stay; both invariants are kept |
| CommentsController.PullKeepsConsistency | react-blog-backend/blog-service/controllers/commentsController.js:159-163 | deleting a comment and pulling its id keeps each consistency condition and the two-way link |
| CommentsController.DeleteComment | react-blog-backend/blog-service/controllers/commentsController.js:146-170 | as written: NotFound; Forbidden with nothing changed unless the requester's id equals the comment's own id; otherwise deletion and pull; the invariant is kept |
| CommentsController.DeleteOwnComment | react-blog-backend/blog-service/controllers/commentsController.js:146-170 | with the author check: a delete of an existing comment succeeds exactly for its author and is otherwise Forbidden with nothing changed |
| CommentsController.EditThenGet | react-blog-backend/blog-service/controllers/commentsController.js:82-143 | after a successful edit a fetch of the comment returns the new content, with the same author and post |
| CommentsController.DeleteScenario | react-blog-backend/blog-service/controllers/commentsController.js:153 | a comment's author is refused by the delete as written and accepted by the corrected one, which empties the post's array again |
| CommentsController.ListScenario | react-blog-backend/blog-service/controllers/commentsController.js:69-119 | a comment added as written is in the post's array but absent from the post's comment list; one recorded under `post` is in both |
| LikeController.FindLike | react-blog-backend/blog-service/controllers/likeController.js:63-66 | `findOne` returns the first like of that user on that post, and returns nothing exactly when there is none |
| LikeController.FindAppended | react-blog-backend/blog-service/controllers/likeController.js:71-72 | a like saved when the user had none on the post is the one the next lookup finds |
| LikeController.LikesOf | react-blog-backend/blog-service/controllers/likeController.js:119 | the query's result holds exactly the likes of the post, and never more likes than the collection |
| LikeController.GetLikesByPost | react-blog-backend/blog-service/controllers/likeController.js:117-119 | the answer is the query's result: exactly the likes of the post, in the collection's order |
| LikeController.AddLike | react-blog-backend/blog-service/controllers/likeController.js:56-82 | NotFound for a missing post, BadRequest for a repeated like, both with nothing changed; otherwise the like is appended and its id pushed onto the post; afterwards the lookup finds it; the invariant is kept |
| LikeController.AddKeepsConsistency | react-blog-backend/blog-service/controllers/likeController.js:71-75 | saving a new like and pushing its id keeps one like per pair, unique ids and the mirrored `likes` arrays |
| LikeController.RemoveLike | react-blog-backend/blog-service/controllers/likeController.js:85-114 | NotFound with nothing changed when the requester has no like on the post; otherwise that like is deleted and its id filtered out of the post; Internal when the post is gone; Forbidden is never answered; the invariant is kept |
| LikeController.RemoveKeepsConsistency | react-blog-backend/blog-service/controllers/likeController.js:101-107 | deleting a like and filtering its id out of its post keeps the like invariants |
| LikeController.LikeIdOwner | react-blog-backend/blog-service/controllers/likeController.js:104-106 | with unique like ids, a like id can belong only to its own post |
| LikeController.HasLikeAfterRemove | react-blog-backend/blog-service/controllers/likeController.js:101 | after a like is deleted, exactly the other likes remain |
| LikeController.LikeThenUnlike | react-blog-backend/blog-service/controllers/likeController.js:56-114 | a successful like followed by an unlike by the same user succeeds and restores every collection and array |
| LikeController.LikeScenario | react-blog-backend/blog-service/controllers/likeController.js:56-114 | like succeeds, a repeat is BadRequest, unlike succeeds and empties the post's array, and a repeat unlike is NotFound |
| CommentSection.Compare | react-blog-frontend/src/components/CommentSection/CommentSection.jsx:264-274 | under "newest" a comes first exactly when it is newer and b exactly when it is older; under "oldest" the reverse; under any other option neither goes first |
| CommentSection.CompareTransitive | react-blog-frontend/src/components/CommentSection/CommentSection.jsx:264-274 | the comparator handed to `sort` orders consistently |
| CommentSection.OrderedCons | react-blog-frontend/src/components/CommentSection/CommentSection.jsx:264-274 | an element that may precede the head of a sorted list may precede all of it |
| CommentSection.Insert | react-blog-frontend/src/components/CommentSection/CommentSection.jsx:264-274 | inserting into a sorted list gives a sorted list holding the same elements plus the new one |
| CommentSection.SortComments | react-blog-frontend/src/components/CommentSection/CommentSection.jsx:264-274 | the sorted view is a permutation of the comments; "newest" is non-increasing and "oldest" non-decreasing by `createdAt`; any other option keeps list order |
| CommentSection.WithoutComment | react-blog-frontend/src/components/CommentSection/CommentSection.jsx:246-248 | exactly the comments with another id remain |
| CommentSection.WithoutCommentKeepsOrder | react-blog-frontend/src/components/CommentSection/CommentSection.jsx:246-248 | removing a comment keeps the comments before and after it in their order |
| CommentSection.TrimStart | react-blog-frontend/src/components/CommentSection/CommentSection.jsx:332 | only leading white space is removed, and the result does not start with white space |
| CommentSection.TrimEnd | react-blog-frontend/src/components/CommentSection/CommentSection.jsx:332 | only trailing white space is removed, and the result does not end with white space |
| CommentSection.Trim | react-blog-frontend/src/components/CommentSection/CommentSection.jsx:332 | the trimmed text is empty exactly when every character is white space, and otherwise starts and ends with a non-space |
| CommentSection.State.constructor | react-blog-frontend/src/components/CommentSection/CommentSection.jsx:10-15 | the initial state: no comments, empty input, not editing, shown, sorted newest first, not loading |
| CommentSection.State.FetchComments | react-blog-frontend/src/components/CommentSection/CommentSection.jsx:20-60 | with no token, nothing is sent and the list is unchanged; otherwise the list becomes the server's on success; loading ends false either way |
| CommentSection.State.HandleAddComment | react-blog-frontend/src/components/CommentSection/CommentSection.jsx:68-125 | the input is posted; on success exactly one entry with the local user as author is appended at the end and the input is cleared; on failure or with no token nothing changes; loading ends false |
| CommentSection.State.HandleEditComment | react-blog-frontend/src/components/CommentSection/CommentSection.jsx:128-133 | edit mode holds the comment and the input holds its content |
| CommentSection.State.CancelEdit | react-blog-frontend/src/components/CommentSection/CommentSection.jsx:346-350 | edit mode is left and the input cleared |
| CommentSection.State.HandleUpdateComment | react-blog-frontend/src/components/CommentSection/CommentSection.jsx:136-201 | a PUT is sent exactly when there is a token, a comment is being edited and its author is the local user's bare id, so never for a comment whose author the list endpoint populated; with no PUT the state is unchanged; on success a new entry is appended, the old one stays, the list grows by one, and edit mode and input are reset; loading ends false |
| CommentSection.State.Submit | react-blog-frontend/src/components/CommentSection/CommentSection.jsx:312 | the form posts a new comment outside edit mode and sends a PUT for the comment being edited, under the update's author check; a request that succeeds appends one entry by the local user, clears the input and leaves edit mode; otherwise nothing changes; loading ends false |
| CommentSection.State.HandleDeleteComment | react-blog-frontend/src/components/CommentSection/CommentSection.jsx:204-253 | a DELETE is sent exactly when there is a token and the author passed is the local user's bare id, so never for a comment whose author the list endpoint populated; on success every entry with that id is removed and the rest keep their order; otherwise the list is unchanged |
| CommentSection.State.OnInput | react-blog-frontend/src/components/CommentSection/CommentSection.jsx:320 | the input holds the typed text |
| CommentSection.State.ToggleShowComments | react-blog-frontend/src/components/CommentSection/CommentSection.jsx:256-259 | visibility flips |
| CommentSection.State.OnSortChange | react-blog-frontend/src/components/CommentSection/CommentSection.jsx:363 | the sort option is the selected one |
| CommentSection.State.RenderComments | react-blog-frontend/src/components/CommentSection/CommentSection.jsx:262-274 | the displayed list is a permutation of the state's list, ordered by the current option; the state is only read |
| CommentSection.OwnCommentScenario | react-blog-frontend/src/components/CommentSection/CommentSection.jsx:156-226 | the user's own comment as fetched, with its author populated, can be neither updated nor deleted; a DELETE is sent for a comment the component appended itself, and a server that accepts it removes it from the list |
| CommentSection.State.SubmitEnabled | react-blog-frontend/src/components/CommentSection/CommentSection.jsx:332 | the submit button is enabled exactly when the input holds a non-space character and nothing is loading |
| LikeButton.SomeLikedBy | react-blog-frontend/src/components/LikeButton/LikeButton.jsx:60 | true exactly when some entry's user is the local user's bare id |
| LikeButton.PopulatedNeverLiked | react-blog-frontend/src/components/LikeButton/LikeButton.jsx:60 | on a list whose users are all populated objects the `.some` test is false for every local user |
| LikeButton.State.constructor | react-blog-frontend/src/components/LikeButton/LikeButton.jsx:10-11 | the initial state is zero likes, not liked |
| LikeButton.State.FetchLikes | react-blog-frontend/src/components/LikeButton/LikeButton.jsx:16-66 | after the reset to (0, false), a successful fetch sets the count to the list's length and the flag to whether the local user is among the likers; no token or a failed fetch leaves (0, false) |
| LikeButton.State.HandleLikeClick | react-blog-frontend/src/components/LikeButton/LikeButton.jsx:71-139 | with no token, nothing is sent and nothing changes; otherwise DELETE if liked and POST if not; a failed request changes nothing; on success the flag flips, the list is fetched again, and the count becomes its length when that fetch answers |
| LikeSync.Entries | react-blog-frontend/src/components/LikeButton/LikeButton.jsx:55 | for the bare query result the button receives one entry per like, with the same user as a bare id, in the same order |
| LikeSync.PopulatedEntries | react-blog-backend/blog-service/controllers/likeController.js:121 | for the populated answer the button receives one entry per like, with the same user as a populated object, in the same order |
| LikeSync.PopulatedAnswerNeverLiked | react-blog-frontend/src/components/LikeButton/LikeButton.jsx:57-61 | with the populated answer the flag the button derives is false for every collection, post and user |
| LikeSync.LikedIffServerFinds | react-blog-frontend/src/components/LikeButton/LikeButton.jsx:57-61 | for the bare query result the flag the button derives is set exactly when the server's `findOne` finds the user's like on the post |
| LikeSync.LikeShowsLiked | react-blog-frontend/src/components/LikeButton/LikeButton.jsx:123-134 | after a successful like, the re-fetched list shows the post liked and is one longer |

## Left out

- SortComments: the result is stated to be an ordered permutation. It is not stated to be the stable order that `Array.prototype.sort` gives to comments with equal timestamps, although the insertion sort places them stably.
- GetComments: comments are a map keyed by id, so the order in which `find` returns them is not modelled.
- GetLikesByPost: line 121 calls `populate` on the plain array that `find` resolved to. Arrays have no such method, so as written the call throws and the handler answers 500, and the button's fetch then fails. The model answers the line-119 query result instead, with `user` as a bare id. `LikedIffServerFinds` and `LikeShowsLiked` hold for that answer only. The handler means to send `user` populated, and `PopulatedAnswerNeverLiked` shows that with such an answer the button's flag is always false.
- Comment authors on the server: `populate("author")` (lines 71-74 and 84 of the comment controller) replaces the author id with the user document. `GetComments` and `GetCommentById` answer the stored id instead. On the client the difference is kept. `Prelude.UserRef` tells a populated author from a bare id. The guards of `HandleUpdateComment` and `HandleDeleteComment` pass only for a bare id, because the component's strict comparison of its id string with an object is never equal.
- PullComment: `Post.updateOne` pulls from the first post holding the id. The model pulls from every post. `PullCommentTouchesOnePost` shows the two agree when each comment id is in at most one post, which `Database.Valid` guarantees.
- Persistence failures, such as a failing `save` or a lost connection, are not modelled as Internal answers. The one Internal answer modelled is `removeLike` reading the `likes` of a post that has gone (line 103).
- HTTP plumbing is left out: routing (`postRoutes.js`), status codes beyond their kind, JSON bodies and messages, and authentication middleware. The requester is a parameter.
- Logging (`logger.info` at lines 114, 138 and 165 of the comment controller, and `console.error`) and `alert` are left out. They have no effect on state.
- The browser and network are inputs: `localStorage`, `fetch`, and the asynchronous ordering of requests. Each handler is modelled as running to completion with the server's answers given. Concurrent clicks and interleaved effects are not modelled. A missing `auth_user` record makes `JSON.parse` yield null and the destructuring throw; the model treats it like a missing token. Both paths end in an alert, with different messages, and they change the same state.
- Timestamps are integers. Date parsing, `NaN` comparisons and `moment` formatting are not modelled, and neither is the rest of the rendering (JSX, styles, dark mode, the hidden-list branch).
- The component's `postId` prop only selects URLs. Re-running effects when it changes is not modelled.
- Posts are created by the post controller, which is not part of this model. A `Database` starts with a given set of empty posts.
- The Comment, Like and Post schemas are not part of this model. Whether Mongoose drops or keeps the `postId` key of line 107, the `post` field stays unset.

## Findings

| source | as written | input that shows it | evidently intended | confidence | as-written member | corrected member |
|---|---|---|---|---|---|---|
| react-blog-backend/blog-service/controllers/commentsController.js:153 | the delete is allowed only when the requester's user id equals the comment's own id | userA deletes their own comment "c1": Forbidden | the delete is allowed when the requester is the comment's author, as `editComment` checks at line 129 | high; not executed | CommentsController.DeleteComment (with CommentsController.DeleteScenario) | CommentsController.DeleteOwnComment |
| react-blog-backend/blog-service/controllers/commentsController.js:107 | the new comment records its post under `postId`, while `getComments` (line 71) and the front end (CommentSection.jsx:113) read `post` | add "hello" to P1, then list P1's comments: the list is empty although P1's array holds the id | the comment records its post under `post`, so that it is listed for the post it was added to | medium, the schema is not part of this model; not executed | CommentsController.AddComment (with CommentsController.ListScenario) | CommentsController.AddLinkedComment |
