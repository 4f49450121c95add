/**
 * The client's post state container (client/src/store/postStore.js).
 *
 * The store is an object with four fields that each action overwrites through
 * `set(...)`. The HTTP call of an action is replaced by its outcome, a
 * parameter: `Success` with the response body, or `Failure` with the message
 * the error handler extracts.
 */
module PostStore {
  import opened Wrappers
  import opened PostModel

  /** The body of a reply carrying one post: `{ post }`. */
  datatype PostEnvelope = PostEnvelope(post: Post)
  /** The body of a reply carrying the feed: `{ posts }`. */
  datatype PostsEnvelope = PostsEnvelope(posts: seq<Post>)

  /** The outcome of a request as the action sees it. */
  type Reply<T> = Result<T, string>

  /** `posts.map(p => p._id === id ? q : p)`: every post with the id replaced by `q`,
      every other post left where it was. */
  function ReplaceById(posts: seq<Post>, id: PostId, q: Post): (r: seq<Post>)
    ensures |r| == |posts|
    ensures forall i :: 0 <= i < |posts| ==> r[i] == if posts[i].id == id then q else posts[i]
  {
    if posts == [] then []
    else [if posts[0].id == id then q else posts[0]] + ReplaceById(posts[1..], id, q)
  }

  /** `posts.filter(p => p._id !== id)`: no post with the id is left, and every other
      post stays (their order is stated by RemoveByIdAppend). */
  function RemoveById(posts: seq<Post>, id: PostId): (r: seq<Post>)
    ensures forall i :: 0 <= i < |r| ==> r[i].id != id
    ensures forall p :: p in posts && p.id != id ==> p in r
    ensures forall p :: p in r ==> p in posts
    ensures |r| <= |posts|
  {
    if posts == [] then []
    else if posts[0].id == id then RemoveById(posts[1..], id)
    else [posts[0]] + RemoveById(posts[1..], id)
  }

  /** Filtering a concatenation filters each part, in order. */
  lemma {:induction false} RemoveByIdAppend(a: seq<Post>, b: seq<Post>, id: PostId)
    ensures RemoveById(a + b, id) == RemoveById(a, id) + RemoveById(b, id)
  {
    if a == [] {
      assert a + b == b;
    } else {
      assert (a + b)[0] == a[0];
      assert (a + b)[1..] == a[1..] + b;
      RemoveByIdAppend(a[1..], b, id);
    }
  }

  /** Removing an id no post has changes nothing. */
  lemma {:induction false} RemoveByIdAbsent(posts: seq<Post>, id: PostId)
    requires forall i :: 0 <= i < |posts| ==> posts[i].id != id
    ensures RemoveById(posts, id) == posts
  {
    if posts != [] {
      RemoveByIdAbsent(posts[1..], id);
    }
  }

  /** Replacing by id keeps every post's id when the replacement carries the same id,
      so later actions on that id still find it. */
  lemma ReplaceByIdKeepsIds(posts: seq<Post>, id: PostId, q: Post)
    requires q.id == id
    ensures forall i :: 0 <= i < |posts| ==> ReplaceById(posts, id, q)[i].id == posts[i].id
  {
  }

  // ---------------------------------------------------------------------------
  // `updatePost` as written stores the whole reply body `data`, not `data.post`.

  /** An element of the client list as `updatePost` can leave it: a post, or a
      reply body stored in its place. */
  datatype ListEntry = PostEntry(post: Post) | EnvelopeEntry(body: PostEnvelope)

  /** `entry._id`: a reply body has no `_id` of its own. */
  function EntryId(e: ListEntry): Option<PostId>
  {
    match e
    case PostEntry(p) => Some(p.id)
    case EnvelopeEntry(_) => None
  }

  /** `posts.map(p => p._id === id ? data : p)`, as postStore.js's `updatePost` has it. */
  function UpdateListAsWritten(posts: seq<Post>, id: PostId, data: PostEnvelope): (r: seq<ListEntry>)
    ensures |r| == |posts|
    ensures forall i :: 0 <= i < |posts| ==>
      r[i] == if posts[i].id == id then EnvelopeEntry(data) else PostEntry(posts[i])
  {
    if posts == [] then []
    else [if posts[0].id == id then EnvelopeEntry(data) else PostEntry(posts[0])]
         + UpdateListAsWritten(posts[1..], id, data)
  }

  /** After the update as written, no entry of the list carries the updated id any
      more, so a later like or comment on that post no longer reaches the list. */
  lemma UpdateAsWrittenLosesId(posts: seq<Post>, id: PostId, data: PostEnvelope)
    requires exists i :: 0 <= i < |posts| && posts[i].id == id
    ensures forall e :: e in UpdateListAsWritten(posts, id, data) ==> EntryId(e) != Some(id)
  {
    var r := UpdateListAsWritten(posts, id, data);
    forall e | e in r
      ensures EntryId(e) != Some(id)
    {
      var k :| 0 <= k < |r| && r[k] == e;
    }
  }

  // ---------------------------------------------------------------------------
  // The store

  class PostStore {
    var posts: seq<Post>
    var isLoading: bool
    var error: Option<string>
    var currentPost: Option<Post>

    /** The initial state. */
    constructor ()
      ensures posts == [] && !isLoading && error == None && currentPost == None
    {
      posts := [];
      isLoading := false;
      error := None;
      currentPost := None;
    }

    /** `set({ isLoading: true, error: null })`, the first step of the loading actions. */
    method BeginRequest()
      modifies this
      ensures isLoading && error == None
      ensures posts == old(posts) && currentPost == old(currentPost)
    {
      isLoading, error := true, None;
    }

    /** `handleError(error, message => set({ error: message, isLoading: false }))` */
    method FailRequest(message: string)
      modifies this
      ensures !isLoading && error == Some(message)
      ensures posts == old(posts) && currentPost == old(currentPost)
    {
      error, isLoading := Some(message), false;
    }

    /** `fetchPosts`: on success the feed is replaced wholesale. */
    method FetchPosts(reply: Reply<PostsEnvelope>)
      modifies this
      ensures !isLoading && currentPost == old(currentPost)
      ensures reply.Success? ==> posts == reply.value.posts && error == None
      ensures reply.Failure? ==> posts == old(posts) && error == Some(reply.error)
    {
      BeginRequest();
      if reply.Success? {
        posts, isLoading := reply.value.posts, false;
      } else {
        FailRequest(reply.error);
      }
    }

    /** `fetchPostById`: on success `currentPost` is the returned post. */
    method FetchPostById(postId: PostId, reply: Reply<PostEnvelope>)
      modifies this
      ensures !isLoading && posts == old(posts)
      ensures reply.Success? ==> currentPost == Some(reply.value.post) && error == None
      ensures reply.Failure? ==> currentPost == old(currentPost) && error == Some(reply.error)
    {
      BeginRequest();
      if reply.Success? {
        currentPost, isLoading := Some(reply.value.post), false;
      } else {
        FailRequest(reply.error);
      }
    }

    /** `createPost`: on success loading ends and the feed is fetched again, with
        `refetch` the outcome of that fetch. */
    method CreatePost(reply: Reply<PostEnvelope>, refetch: Reply<PostsEnvelope>)
      modifies this
      ensures !isLoading && currentPost == old(currentPost)
      ensures reply.Failure? ==> posts == old(posts) && error == Some(reply.error)
      ensures reply.Success? && refetch.Success? ==> posts == refetch.value.posts && error == None
      ensures reply.Success? && refetch.Failure? ==> posts == old(posts) && error == Some(refetch.error)
    {
      BeginRequest();
      if reply.Success? {
        isLoading := false;
        FetchPosts(refetch);
      } else {
        FailRequest(reply.error);
      }
    }

    /** `updatePost`, with the list updated to the returned post (`data.post`), then
        the post fetched again with outcome `refetch`. */
    method UpdatePost(postId: PostId, reply: Reply<PostEnvelope>, refetch: Reply<PostEnvelope>)
      modifies this
      ensures !isLoading
      ensures reply.Failure? ==>
        posts == old(posts) && error == Some(reply.error) && currentPost == old(currentPost)
      ensures reply.Success? ==> posts == ReplaceById(old(posts), postId, reply.value.post)
      ensures reply.Success? && refetch.Success? ==> currentPost == Some(refetch.value.post) && error == None
      ensures reply.Success? && refetch.Failure? ==> currentPost == old(currentPost) && error == Some(refetch.error)
    {
      BeginRequest();
      if reply.Success? {
        isLoading := false;
        posts := ReplaceById(posts, postId, reply.value.post);
        FetchPostById(postId, refetch);
      } else {
        FailRequest(reply.error);
      }
    }

    /** `deletePost`: on success every post with the id leaves the list. */
    method DeletePost(postId: PostId, reply: Reply<()>)
      modifies this
      ensures !isLoading && currentPost == old(currentPost)
      ensures reply.Success? ==> posts == RemoveById(old(posts), postId) && error == None
      ensures reply.Failure? ==> posts == old(posts) && error == Some(reply.error)
    {
      BeginRequest();
      if reply.Success? {
        posts, isLoading := RemoveById(posts, postId), false;
      } else {
        FailRequest(reply.error);
      }
    }

    /** The common success step of `likePost`, `addComment` and `deleteComment`:
        the returned post replaces the posts with its id and becomes `currentPost`;
        `isLoading` and `error` are not touched. A failure is rethrown
        (`ok` is false) and changes nothing. */
    method ApplyPostReply(postId: PostId, reply: Reply<PostEnvelope>) returns (ok: bool)
      modifies this
      ensures ok == reply.Success?
      ensures isLoading == old(isLoading) && error == old(error)
      ensures reply.Success? ==>
        posts == ReplaceById(old(posts), postId, reply.value.post) && currentPost == Some(reply.value.post)
      ensures reply.Failure? ==> posts == old(posts) && currentPost == old(currentPost)
    {
      if reply.Success? {
        posts := ReplaceById(posts, postId, reply.value.post);
        currentPost := Some(reply.value.post);
        ok := true;
      } else {
        ok := false;
      }
    }

    /** `likePost` */
    method LikePost(postId: PostId, reply: Reply<PostEnvelope>) returns (ok: bool)
      modifies this
      ensures ok == reply.Success?
      ensures isLoading == old(isLoading) && error == old(error)
      ensures reply.Success? ==>
        posts == ReplaceById(old(posts), postId, reply.value.post) && currentPost == Some(reply.value.post)
      ensures reply.Failure? ==> posts == old(posts) && currentPost == old(currentPost)
    {
      ok := ApplyPostReply(postId, reply);
    }

    /** `addComment` (the text travels in the request, which the reply stands for) */
    method AddComment(postId: PostId, commentText: string, reply: Reply<PostEnvelope>) returns (ok: bool)
      modifies this
      ensures ok == reply.Success?
      ensures isLoading == old(isLoading) && error == old(error)
      ensures reply.Success? ==>
        posts == ReplaceById(old(posts), postId, reply.value.post) && currentPost == Some(reply.value.post)
      ensures reply.Failure? ==> posts == old(posts) && currentPost == old(currentPost)
    {
      ok := ApplyPostReply(postId, reply);
    }

    /** `deleteComment` */
    method DeleteComment(postId: PostId, commentId: CommentId, reply: Reply<PostEnvelope>) returns (ok: bool)
      modifies this
      ensures ok == reply.Success?
      ensures isLoading == old(isLoading) && error == old(error)
      ensures reply.Success? ==>
        posts == ReplaceById(old(posts), postId, reply.value.post) && currentPost == Some(reply.value.post)
      ensures reply.Failure? ==> posts == old(posts) && currentPost == old(currentPost)
    {
      ok := ApplyPostReply(postId, reply);
    }
  }
}
