/**
 * The post API handlers (server/controllers/post.controller.js).
 *
 * The database is a `PostCollection`: a map from post id to post document.
 * Each handler loads the post, edits the loaded copy step by step and saves
 * it back, as the source does with Mongoose documents. The caller's identity,
 * fresh ids, the clock and the upload provider are parameters.
 */
module PostController {
  import opened Wrappers
  import opened PostModel
  import MulterMiddleware

  /** `upload.fields`: at most 5 files in `images` and 2 in `videos`. */
  const MaxImages: nat := 5
  const MaxVideos: nat := 2

  /** What a handler sends: a success message with the post, or an HTTP error status
      with its message. */
  datatype Response = Ok(message: string, post: Post) | Error(status: nat, message: string)

  // ---------------------------------------------------------------------------
  // Likes

  /** `likes.filter(id => id.toString() !== x)`: every occurrence of `x` removed, every other element
      kept as often as before (their order is stated by RemoveAllAppend). */
  function RemoveAll(s: seq<UserId>, x: UserId): (r: seq<UserId>)
    ensures x !in r
    ensures forall y :: y != x ==> multiset(r)[y] == multiset(s)[y]
    ensures |r| == |s| - multiset(s)[x]
  {
    if s == [] then []
    else
      assert s == [s[0]] + s[1..];
      if s[0] == x then RemoveAll(s[1..], x) else [s[0]] + RemoveAll(s[1..], x)
  }

  /** Filtering a concatenation filters each part and keeps them in order. */
  lemma {:induction false} RemoveAllAppend(a: seq<UserId>, b: seq<UserId>, x: UserId)
    ensures RemoveAll(a + b, x) == RemoveAll(a, x) + RemoveAll(b, x)
  {
    if a == [] {
      assert a + b == b;
    } else {
      assert (a + b)[0] == a[0];
      assert (a + b)[1..] == a[1..] + b;
      RemoveAllAppend(a[1..], b, x);
    }
  }

  /** Filtering out an element that is not there changes nothing. */
  lemma {:induction false} RemoveAllAbsent(s: seq<UserId>, x: UserId)
    requires x !in s
    ensures RemoveAll(s, x) == s
  {
    if s != [] {
      RemoveAllAbsent(s[1..], x);
    }
  }

  /** Filtering keeps a duplicate-free list duplicate-free. */
  lemma {:induction false} RemoveAllKeepsNoDuplicates(s: seq<UserId>, x: UserId)
    requires NoDuplicates(s)
    ensures NoDuplicates(RemoveAll(s, x))
  {
    if s != [] {
      RemoveAllKeepsNoDuplicates(s[1..], x);
      var rest := RemoveAll(s[1..], x);
      if s[0] != x {
        assert s[0] !in s[1..];
        assert multiset(s[1..])[s[0]] == 0;
      }
    }
  }

  /** The like toggle of `likePost`: a caller already present is filtered out
      everywhere; otherwise the caller is appended once. */
  function ToggleLike(likes: seq<UserId>, user: UserId): (r: seq<UserId>)
    ensures user in r <==> user !in likes
    ensures user !in likes ==> multiset(r)[user] == 1 && r[|r| - 1] == user
    ensures forall v :: v != user ==> multiset(r)[v] == multiset(likes)[v]
  {
    if user in likes then RemoveAll(likes, user) else likes + [user]
  }

  /** In both cases the other users' entries keep their order. */
  lemma ToggleLikeKeepsOthersInOrder(likes: seq<UserId>, user: UserId)
    ensures RemoveAll(ToggleLike(likes, user), user) == RemoveAll(likes, user)
  {
    if user in likes {
      RemoveAllAbsent(RemoveAll(likes, user), user);
    } else {
      RemoveAllAppend(likes, [user], user);
      assert RemoveAll([user], user) == [];
    }
  }

  /** Liking and then unliking restores the original list. */
  lemma ToggleLikeTwiceRestores(likes: seq<UserId>, user: UserId)
    requires user !in likes
    ensures ToggleLike(ToggleLike(likes, user), user) == likes
  {
    ToggleLikeKeepsOthersInOrder(likes, user);
    RemoveAllAbsent(likes, user);
  }

  /** A duplicate-free `likes` stays duplicate-free under the toggle. */
  lemma ToggleLikeKeepsNoDuplicates(likes: seq<UserId>, user: UserId)
    requires NoDuplicates(likes)
    ensures NoDuplicates(ToggleLike(likes, user))
  {
    if user in likes {
      RemoveAllKeepsNoDuplicates(likes, user);
    }
  }

  // ---------------------------------------------------------------------------
  // Comments

  /** `comments.findIndex(c => c._id === id)`: the first position holding the id, or -1. */
  function FindCommentIndex(cs: seq<Comment>, id: CommentId): (r: int)
    ensures -1 <= r < |cs|
    ensures r == -1 <==> forall j :: 0 <= j < |cs| ==> cs[j].id != id
    ensures r >= 0 ==> cs[r].id == id && forall j :: 0 <= j < r ==> cs[j].id != id
  {
    if cs == [] then -1
    else if cs[0].id == id then 0
    else
      var k := FindCommentIndex(cs[1..], id);
      if k == -1 then -1 else k + 1
  }

  /** No two comments of a post share an id (what Mongoose's id generation provides). */
  predicate UniqueCommentIds(cs: seq<Comment>)
  {
    forall i, j :: 0 <= i < j < |cs| ==> cs[i].id != cs[j].id
  }

  /** A comment pushed with a fresh id is the one `findIndex` then finds, and
      splicing it out restores the earlier comments. */
  lemma AddThenDeleteRestores(cs: seq<Comment>, c: Comment)
    requires forall j :: 0 <= j < |cs| ==> cs[j].id != c.id
    ensures FindCommentIndex(cs + [c], c.id) == |cs|
    ensures (cs + [c])[..|cs|] + (cs + [c])[|cs| + 1..] == cs
  {
    var s := cs + [c];
    assert s[|cs|].id == c.id;
    assert forall j :: 0 <= j < |cs| ==> s[j].id != c.id;
    assert s[..|cs|] == cs;
    assert s[|cs| + 1..] == [];
  }

  /** With unique ids, splicing out the found comment leaves no comment with that id,
      and the ids stay unique. */
  lemma SpliceRemovesId(cs: seq<Comment>, id: CommentId)
    requires UniqueCommentIds(cs)
    requires FindCommentIndex(cs, id) >= 0
    ensures var i := FindCommentIndex(cs, id);
      var r := cs[..i] + cs[i + 1..];
      && UniqueCommentIds(r)
      && forall j :: 0 <= j < |r| ==> r[j].id != id
  {
    var i := FindCommentIndex(cs, id);
    var r := cs[..i] + cs[i + 1..];
    assert forall j :: 0 <= j < |r| ==> r[j] == if j < i then cs[j] else cs[j + 1];
    forall a, b | 0 <= a < b < |r|
      ensures r[a].id != r[b].id
    {
      var a' := if a < i then a else a + 1;
      var b' := if b < i then b else b + 1;
      assert a' < b';
    }
  }

  /** Pushing a comment with a fresh id keeps the ids unique. */
  lemma PushKeepsUniqueIds(cs: seq<Comment>, c: Comment)
    requires UniqueCommentIds(cs)
    requires forall j :: 0 <= j < |cs| ==> cs[j].id != c.id
    ensures UniqueCommentIds(cs + [c])
  {
  }

  // ---------------------------------------------------------------------------
  // Media upload

  /** The provider's resource type: `"auto"` for images, `"video"` for videos. */
  datatype ResourceType = Auto | Video

  /** What the upload provider's callback receives: an error, or a result that
      may lack `secure_url`. */
  datatype ProviderReply = ProviderError(message: string) | ProviderResult(secureUrl: Option<Url>)

  /** The upload provider, as a function of the bytes and the resource type. */
  type Provider = (seq<bv8>, ResourceType) -> ProviderReply

  /** `uploadMedia`: empty buffers are refused before any call; otherwise the
      provider's reply is turned into a URL or an error message. A missing or
      empty `secure_url` is a failure (the source tests it for truthiness). */
  function UploadMedia(buffer: seq<bv8>, rt: ResourceType, provider: Provider): (r: Result<Url, string>)
    ensures |buffer| == 0 ==> r == Failure("File buffer is empty")
    ensures r.Success? <==>
      && |buffer| > 0 && provider(buffer, rt).ProviderResult?
      && provider(buffer, rt).secureUrl.Some? && provider(buffer, rt).secureUrl.value != ""
    ensures r.Success? ==> r.value == provider(buffer, rt).secureUrl.value && r.value != ""
  {
    if |buffer| == 0 then Failure("File buffer is empty")
    else match provider(buffer, rt)
      case ProviderError(msg) =>
        Failure("Cloudinary upload failed: " + (if msg == "" then "Unknown error" else msg))
      case ProviderResult(None) => Failure("Cloudinary upload failed: Secure URL is missing")
      case ProviderResult(Some(url)) =>
        if url == "" then Failure("Cloudinary upload failed: Secure URL is missing") else Success(url)
  }

  /** `Promise.all(files.map(f => uploadMedia(f.buffer, rt)))`: all URLs in file
      order, or the error of a failed upload (the first in file order). */
  function UploadAll(files: seq<MulterMiddleware.UploadedFile>, rt: ResourceType, provider: Provider): (r: Result<seq<Url>, string>)
    ensures r.Success? <==> forall i :: 0 <= i < |files| ==> UploadMedia(files[i].buffer, rt, provider).Success?
    ensures r.Success? ==>
      && |r.value| == |files|
      && forall i :: 0 <= i < |files| ==> UploadMedia(files[i].buffer, rt, provider) == Success(r.value[i])
  {
    if files == [] then Success([])
    else match UploadMedia(files[0].buffer, rt, provider)
      case Failure(msg) => Failure(msg)
      case Success(url) =>
        match UploadAll(files[1..], rt, provider)
        case Failure(msg) => Failure(msg)
        case Success(urls) => Success([url] + urls)
  }

  /** The body fields of a create request: `content` (possibly missing), the
      files of the `images` and `videos` fields (empty when a field is absent),
      and the files sent under any other field name. */
  datatype CreateRequest = CreateRequest(
    content: Option<string>,
    images: seq<MulterMiddleware.UploadedFile>,
    videos: seq<MulterMiddleware.UploadedFile>,
    others: seq<MulterMiddleware.UploadedFile>)

  /** The error `upload.fields` reports for a request, checking `images`, then
      `videos`, then refusing any file in a field it does not declare. */
  function UploadFieldsError(req: CreateRequest): (r: Option<MulterMiddleware.UploadError>)
    ensures r.None? <==>
      && |req.images| <= MaxImages && |req.videos| <= MaxVideos
      && (forall k :: 0 <= k < |req.images| ==>
            MulterMiddleware.FileFilter(req.images[k].mimetype).Accept? && MulterMiddleware.WithinSizeLimit(req.images[k]))
      && (forall k :: 0 <= k < |req.videos| ==>
            MulterMiddleware.FileFilter(req.videos[k].mimetype).Accept? && MulterMiddleware.WithinSizeLimit(req.videos[k]))
      && req.others == []
    ensures MulterMiddleware.FieldError(req.images, MaxImages).None? ==>
      (MulterMiddleware.FieldError(req.videos, MaxVideos).None? ==>
        (r.Some? ==> r == Some(MulterMiddleware.UnexpectedField)))
  {
    match MulterMiddleware.FieldError(req.images, MaxImages)
    case Some(e) => Some(e)
    case None =>
      match MulterMiddleware.FieldError(req.videos, MaxVideos)
      case Some(e) => Some(e)
      case None => if req.others != [] then Some(MulterMiddleware.UnexpectedField) else None
  }

  /** `!content`: the field is missing or the empty string. */
  predicate ContentMissing(content: Option<string>)
  {
    content.None? || content.value == ""
  }

  // ---------------------------------------------------------------------------
  // The handlers

  class PostCollection {
    var posts: map<PostId, Post>

    /** Every stored post sits under its own id, passes schema validation and has
        duplicate-free likes. */
    ghost predicate Valid()
      reads this
    {
      forall id :: id in posts ==>
        posts[id].id == id && ValidPost(posts[id]) && NoDuplicates(posts[id].likes)
    }

    constructor ()
      ensures Valid() && posts == map[]
    {
      posts := map[];
    }

    /** `createPost` */
    method CreatePost(req: CreateRequest, caller: UserId, newId: PostId, now: Timestamp, provider: Provider)
      returns (res: Response)
      requires Valid()
      modifies this
      ensures Valid()
      ensures UploadFieldsError(req).Some? ==>
        res == Error(400, MulterMiddleware.Message(UploadFieldsError(req).value)) && posts == old(posts)
      ensures UploadFieldsError(req).None? && ContentMissing(req.content) ==>
        res == Error(400, "Content is required") && posts == old(posts)
      ensures UploadFieldsError(req).None? && !ContentMissing(req.content) ==>
        var images := UploadAll(req.images, Auto, provider);
        var videos := UploadAll(req.videos, Video, provider);
        && (images.Failure? ==> res == Error(500, "Failed to upload images: " + images.error))
        && (images.Success? && videos.Failure? ==> res == Error(500, "Failed to upload videos: " + videos.error))
      ensures res.Error? ==> posts == old(posts)
      ensures res.Error? && res.status != 400 ==> res.status == 500
      ensures res.Ok? ==>
        && UploadFieldsError(req).None? && !ContentMissing(req.content)
        && newId !in old(posts)
        && UploadAll(req.images, Auto, provider) == Success(res.post.media.images)
        && UploadAll(req.videos, Video, provider) == Success(res.post.media.videos)
        && res.post == NewPost(newId, caller, req.content.value, res.post.media, now)
        && posts == old(posts)[newId := res.post]
      ensures UploadFieldsError(req).None? && !ContentMissing(req.content) && newId !in old(posts)
        && UploadAll(req.images, Auto, provider).Success? && UploadAll(req.videos, Video, provider).Success?
        ==> res.Ok?
    {
      var uploadError := UploadFieldsError(req);
      if uploadError.Some? {
        return Error(400, MulterMiddleware.Message(uploadError.value));
      }
      if ContentMissing(req.content) {
        return Error(400, "Content is required");
      }
      var media := Media([], []);
      if req.images != [] {
        var uploaded := UploadAll(req.images, Auto, provider);
        if uploaded.Failure? {
          return Error(500, "Failed to upload images: " + uploaded.error);
        }
        media := media.(images := uploaded.value);
      }
      if req.videos != [] {
        var uploaded := UploadAll(req.videos, Video, provider);
        if uploaded.Failure? {
          return Error(500, "Failed to upload videos: " + uploaded.error);
        }
        media := media.(videos := uploaded.value);
      }
      if newId in posts {
        // the insert fails on a duplicate key
        return Error(500, "Failed to create post");
      }
      var post := NewPost(newId, caller, req.content.value, media, now);
      posts := posts[newId := post];
      res := Ok("Post created successfully", post);
    }

    /** `getPostById` */
    method GetPostById(id: PostId) returns (res: Response)
      requires Valid()
      ensures id !in posts ==> res == Error(404, "Post not found")
      ensures id in posts ==> res.Ok? && res.post == posts[id] && res.post.id == id
    {
      if id !in posts {
        return Error(404, "Post not found");
      }
      res := Ok("Post retrieved successfully", posts[id]);
    }

    /** `updatePost`: replaces the content only. With `runValidators`, Mongoose
        validates the update before it sends the query, so an empty content is
        refused whether or not the post exists. */
    method UpdatePost(id: PostId, content: string, now: Timestamp) returns (res: Response)
      requires Valid()
      modifies this
      ensures Valid()
      ensures content == "" ==> res == Error(500, "Validation failed: content: Path `content` is required.")
      ensures content != "" && id !in old(posts) ==> res == Error(404, "Post not found")
      ensures res.Error? ==> posts == old(posts)
      ensures res.Ok? <==> id in old(posts) && content != ""
      ensures res.Ok? ==>
        && res.post == old(posts)[id].(content := content, updatedAt := now)
        && posts == old(posts)[id := res.post]
    {
      if !RequiredString(content) {
        return Error(500, "Validation failed: content: Path `content` is required.");
      }
      if id !in posts {
        return Error(404, "Post not found");
      }
      var post := posts[id].(content := content, updatedAt := now);
      posts := posts[id := post];
      res := Ok("Post updated successfully", post);
    }

    /** `deletePost`: the post goes, and its embedded comments with it. */
    method DeletePost(id: PostId) returns (res: Response)
      requires Valid()
      modifies this
      ensures Valid()
      ensures id !in old(posts) ==> res == Error(404, "Post not found") && posts == old(posts)
      ensures id in old(posts) ==>
        res == Ok("Post deleted successfully", old(posts)[id]) && posts == old(posts) - {id}
      ensures id !in posts
    {
      if id !in posts {
        return Error(404, "Post not found");
      }
      var post := posts[id];
      posts := posts - {id};
      res := Ok("Post deleted successfully", post);
    }

    /** `likePost` */
    method LikePost(id: PostId, caller: UserId, now: Timestamp) returns (res: Response)
      requires Valid()
      modifies this
      ensures Valid()
      ensures id !in old(posts) ==> res == Error(404, "Post not found") && posts == old(posts)
      ensures id in old(posts) ==>
        && res.Ok?
        && res.message == (if caller in old(posts)[id].likes then "Post unliked successfully" else "Post liked successfully")
        && res.post == old(posts)[id].(likes := ToggleLike(old(posts)[id].likes, caller), updatedAt := now)
        && posts == old(posts)[id := res.post]
    {
      if id !in posts {
        return Error(404, "Post not found");
      }
      var post := posts[id];
      var userLiked := caller in post.likes;
      if userLiked {
        post := post.(likes := RemoveAll(post.likes, caller));
      } else {
        post := post.(likes := post.likes + [caller]);
      }
      ToggleLikeKeepsNoDuplicates(posts[id].likes, caller);
      post := post.(updatedAt := now);
      posts := posts[id := post];
      res := Ok(if userLiked then "Post unliked successfully" else "Post liked successfully", post);
    }

    /** `addComment`: the text is checked before the post is looked up. */
    method AddComment(id: PostId, caller: UserId, text: Option<string>, commentId: CommentId, now: Timestamp)
      returns (res: Response)
      requires Valid()
      modifies this
      ensures Valid()
      ensures ContentMissing(text) ==> res == Error(400, "Comment text is required")
      ensures !ContentMissing(text) && id !in old(posts) ==> res == Error(404, "Post not found")
      ensures res.Error? ==> posts == old(posts)
      ensures res.Ok? <==> !ContentMissing(text) && id in old(posts)
      ensures res.Ok? ==>
        && res.post == old(posts)[id].(
             comments := old(posts)[id].comments + [NewComment(commentId, caller, text.value, now)],
             updatedAt := now)
        && posts == old(posts)[id := res.post]
    {
      if ContentMissing(text) {
        return Error(400, "Comment text is required");
      }
      if id !in posts {
        return Error(404, "Post not found");
      }
      var post := posts[id];
      post := post.(comments := post.comments + [NewComment(commentId, caller, text.value, now)]);
      post := post.(updatedAt := now);
      posts := posts[id := post];
      res := Ok("Comment added successfully", post);
    }

    /** `deleteComment`: only the author of the first comment with the given id may
        remove it. */
    method DeleteComment(id: PostId, commentId: CommentId, caller: UserId, now: Timestamp)
      returns (res: Response)
      requires Valid()
      modifies this
      ensures Valid()
      ensures id !in old(posts) ==> res == Error(404, "Post not found")
      ensures res.Error? ==> posts == old(posts)
      ensures id in old(posts) ==>
        var cs := old(posts)[id].comments;
        var i := FindCommentIndex(cs, commentId);
        && (i == -1 ==> res == Error(404, "Comment not found"))
        && (i >= 0 && cs[i].user != caller ==> res == Error(403, "Unauthorized to delete this comment"))
        && (i >= 0 && cs[i].user == caller ==>
              && res.Ok?
              && res.post == old(posts)[id].(comments := cs[..i] + cs[i + 1..], updatedAt := now)
              && |res.post.comments| == |cs| - 1
              && posts == old(posts)[id := res.post])
    {
      if id !in posts {
        return Error(404, "Post not found");
      }
      var post := posts[id];
      var commentIndex := FindCommentIndex(post.comments, commentId);
      if commentIndex == -1 {
        return Error(404, "Comment not found");
      }
      if post.comments[commentIndex].user != caller {
        return Error(403, "Unauthorized to delete this comment");
      }
      post := post.(comments := post.comments[..commentIndex] + post.comments[commentIndex + 1..]);
      post := post.(updatedAt := now);
      posts := posts[id := post];
      res := Ok("Comment deleted successfully", post);
    }
  }
}
