/**
 * One post in the feed (client/src/components/post/PostCard.jsx): the media
 * carousel, the comment box, and the like and author-only indicators.
 */
module PostCard {
  import opened Wrappers
  import opened PostModel
  import opened Text
  import PostStore
  import PostController

  // ---------------------------------------------------------------------------
  // Media

  /** `post.media` as the card reads it, with optional chaining on each list. */
  datatype CardMedia = CardMedia(images: Option<seq<Url>>, videos: Option<seq<Url>>)

  /** `list || []` */
  function OrEmpty(s: Option<seq<Url>>): seq<Url>
  {
    if s.Some? then s.value else []
  }

  /** The card's view of a post's media. */
  function CardMediaOf(p: Post): Option<CardMedia>
  {
    Some(CardMedia(Some(p.media.images), Some(p.media.videos)))
  }

  /** `(post.media?.images?.length || 0) + (post.media?.videos?.length || 0)` */
  function MediaLength(m: Option<CardMedia>): nat
  {
    (if m.Some? && m.value.images.Some? then |m.value.images.value| else 0)
    + (if m.Some? && m.value.videos.Some? then |m.value.videos.value| else 0)
  }

  /** `[...(post.media?.images || []), ...(post.media?.videos || [])]` */
  function AllMedia(m: Option<CardMedia>): seq<Url>
  {
    if m.None? then [] else OrEmpty(m.value.images) + OrEmpty(m.value.videos)
  }

  /** The slides are the images followed by the videos, and there are
      `mediaLength` of them; missing lists count as empty. */
  lemma AllMediaMatchesLength(m: Option<CardMedia>)
    ensures |AllMedia(m)| == MediaLength(m)
    ensures m.Some? ==>
      var imgs := OrEmpty(m.value.images);
      var vids := OrEmpty(m.value.videos);
      && (forall i :: 0 <= i < |imgs| ==> AllMedia(m)[i] == imgs[i])
      && (forall j :: 0 <= j < |vids| ==> AllMedia(m)[|imgs| + j] == vids[j])
  {
  }

  /** For a post from the server both lists are present. */
  lemma ServerPostMedia(p: Post)
    ensures MediaLength(CardMediaOf(p)) == |p.media.images| + |p.media.videos|
    ensures AllMedia(CardMediaOf(p)) == p.media.images + p.media.videos
  {
  }

  // ---------------------------------------------------------------------------
  // Carousel

  /** `handleNext`'s step: advance only while not on the last slide. */
  function NextIndex(i: int, mediaLength: nat): int
  {
    if i < mediaLength - 1 then i + 1 else i
  }

  /** `handlePrev`'s step: go back only while not on the first slide. */
  function PrevIndex(i: int): int
  {
    if i > 0 then i - 1 else i
  }

  /** The index shows a slide, or is 0 when there is none. */
  predicate IndexInRange(i: int, mediaLength: nat)
  {
    0 <= i && (i == 0 || i <= mediaLength - 1)
  }

  /** Both steps keep the index in [0, max(0, mediaLength - 1)]. */
  lemma StepsKeepIndexInRange(i: int, mediaLength: nat)
    requires IndexInRange(i, mediaLength)
    ensures IndexInRange(NextIndex(i, mediaLength), mediaLength)
    ensures IndexInRange(PrevIndex(i), mediaLength)
  {
  }

  /** From an index that can still advance, next then previous comes back; from one
      that can go back, previous then next comes back. */
  lemma StepsUndoEachOther(i: int, mediaLength: nat)
    requires IndexInRange(i, mediaLength)
    ensures i < mediaLength - 1 ==> PrevIndex(NextIndex(i, mediaLength)) == i
    ensures i > 0 ==> NextIndex(PrevIndex(i), mediaLength) == i
  {
  }

  /** The slide position state of one card. */
  class MediaCarousel {
    var currentMediaIndex: int
    const mediaLength: nat

    ghost predicate Valid()
      reads this
    {
      IndexInRange(currentMediaIndex, mediaLength)
    }

    constructor (mediaLength: nat)
      ensures Valid() && currentMediaIndex == 0 && this.mediaLength == mediaLength
    {
      this.mediaLength := mediaLength;
      currentMediaIndex := 0;
    }

    /** `handleNext` */
    method HandleNext()
      requires Valid()
      modifies this
      ensures Valid()
      ensures currentMediaIndex == NextIndex(old(currentMediaIndex), mediaLength)
      ensures old(currentMediaIndex) < mediaLength - 1 ==> currentMediaIndex == old(currentMediaIndex) + 1
      ensures old(currentMediaIndex) >= mediaLength - 1 ==> currentMediaIndex == old(currentMediaIndex)
    {
      if currentMediaIndex < mediaLength - 1 {
        currentMediaIndex := currentMediaIndex + 1;
      }
    }

    /** `handlePrev` */
    method HandlePrev()
      requires Valid()
      modifies this
      ensures Valid()
      ensures currentMediaIndex == PrevIndex(old(currentMediaIndex))
      ensures old(currentMediaIndex) > 0 ==> currentMediaIndex == old(currentMediaIndex) - 1
      ensures old(currentMediaIndex) == 0 ==> currentMediaIndex == 0
    {
      if currentMediaIndex > 0 {
        currentMediaIndex := currentMediaIndex - 1;
      }
    }
  }

  // ---------------------------------------------------------------------------
  // Likes and comments as shown

  /** `post.likes.includes(user?._id)`: the filled heart. */
  predicate ShowsLiked(user: Option<UserId>, likes: seq<UserId>)
  {
    user.Some? && user.value in likes
  }

  /** `post.likes.length` */
  function LikeCount(likes: seq<UserId>): nat
  {
    |likes|
  }

  /** The server reply a post reached the client in. */
  datatype PostSource =
    | FeedReply          // getAllPosts
    | GetByIdReply       // getPostById
    | UpdateReply        // updatePost
    | LikeReply          // likePost
    | AddCommentReply    // addComment
    | DeleteCommentReply // deleteComment

  /** Whether the reply populates `comments.user` with the author's `{ _id, name }`. */
  predicate PopulatesCommentAuthors(src: PostSource)
  {
    src.GetByIdReply? || src.UpdateReply? || src.AddCommentReply? || src.DeleteCommentReply?
  }

  /** A comment's `user` as the client receives it: a populated user object, or the
      bare id string. */
  datatype CommentAuthor = Populated(id: UserId) | Bare(id: UserId)

  /** The author field of a comment written by `author`, in a post that came in `src`. */
  function ReceivedAuthor(src: PostSource, author: UserId): (a: CommentAuthor)
    ensures a.id == author
    ensures a.Populated? <==> PopulatesCommentAuthors(src)
  {
    if PopulatesCommentAuthors(src) then Populated(author) else Bare(author)
  }

  /** `user?._id === comment.user._id`, the delete control of a comment. On a bare id
      string `._id` is `undefined`, which equals `user?._id` only when the client
      holds no user. */
  predicate ShowsDeleteControl(user: Option<UserId>, author: CommentAuthor)
  {
    match author
    case Populated(id) => user.Some? && user.value == id
    case Bare(_) => user.None?
  }

  /** The control compared on the author's id whatever form the field takes,
      shown only to a signed-in user. */
  predicate ShowsDeleteControlByAuthorId(user: Option<UserId>, author: CommentAuthor)
  {
    user.Some? && user.value == author.id
  }

  /** A server-side toggle by the signed-in user flips the heart. */
  lemma LikedIndicatorFlips(likes: seq<UserId>, user: UserId)
    ensures ShowsLiked(Some(user), PostController.ToggleLike(likes, user)) <==> !ShowsLiked(Some(user), likes)
  {
  }

  /** An element of a duplicate-free list occurs exactly once. */
  lemma {:induction false} SingleOccurrence(s: seq<UserId>, x: UserId)
    requires NoDuplicates(s) && x in s
    ensures multiset(s)[x] == 1
  {
    assert s == [s[0]] + s[1..];
    if s[0] == x {
      assert x !in s[1..];
    } else {
      SingleOccurrence(s[1..], x);
    }
  }

  /** With duplicate-free likes, the count moves by exactly one on each toggle. */
  lemma LikeCountAfterToggle(likes: seq<UserId>, user: UserId)
    requires NoDuplicates(likes)
    ensures LikeCount(PostController.ToggleLike(likes, user))
      == if user in likes then LikeCount(likes) - 1 else LikeCount(likes) + 1
  {
    if user in likes {
      SingleOccurrence(likes, user);
    }
  }

  /** In a post whose comment authors are populated and whose comment ids are unique,
      the delete control shows on a comment exactly when the server would let the
      signed-in user delete it (no 403). */
  lemma DeleteControlMatchesServer(src: PostSource, cs: seq<Comment>, i: nat, user: UserId)
    requires PopulatesCommentAuthors(src)
    requires PostController.UniqueCommentIds(cs) && i < |cs|
    ensures PostController.FindCommentIndex(cs, cs[i].id) == i
    ensures ShowsDeleteControl(Some(user), ReceivedAuthor(src, cs[i].user))
      <==> cs[PostController.FindCommentIndex(cs, cs[i].id)].user == user
  {
  }

  /** In the feed and after a like, comment authors arrive as bare ids: a signed-in
      author sees no delete control on a comment the server would let them delete,
      while a client whose auth store holds no user sees it on every comment. */
  lemma BareAuthorsMisplaceDeleteControl(src: PostSource, cs: seq<Comment>, i: nat)
    requires !PopulatesCommentAuthors(src)
    requires PostController.UniqueCommentIds(cs) && i < |cs|
    ensures PostController.FindCommentIndex(cs, cs[i].id) == i
    ensures cs[PostController.FindCommentIndex(cs, cs[i].id)].user == cs[i].user
    ensures !ShowsDeleteControl(Some(cs[i].user), ReceivedAuthor(src, cs[i].user))
    ensures ShowsDeleteControl(None, ReceivedAuthor(src, cs[i].user))
  {
  }

  /** Compared on the author's id, the control shows exactly on the comments the
      server lets the signed-in user delete, whichever reply the post came in. */
  lemma DeleteControlByAuthorIdMatchesServer(src: PostSource, cs: seq<Comment>, i: nat, user: Option<UserId>)
    requires PostController.UniqueCommentIds(cs) && i < |cs|
    ensures PostController.FindCommentIndex(cs, cs[i].id) == i
    ensures ShowsDeleteControlByAuthorId(user, ReceivedAuthor(src, cs[i].user))
      <==> user.Some? && cs[PostController.FindCommentIndex(cs, cs[i].id)].user == user.value
  {
  }

  /** The comment input of one card. */
  class CommentBox {
    var commentText: string

    constructor ()
      ensures commentText == ""
    {
      commentText := "";
    }

    /** `handleAddComment`: blank text is refused without a request; the text is
        cleared only once the store reports success (it rethrows failures). */
    method HandleAddComment(store: PostStore.PostStore, postId: PostId, reply: PostStore.Reply<PostStore.PostEnvelope>)
      returns (sent: bool)
      modifies this, store
      ensures sent <==> !IsWhitespaceOnly(old(commentText))
      ensures !sent ==> commentText == old(commentText) && unchanged(store)
      ensures sent ==>
        && commentText == (if reply.Success? then "" else old(commentText))
        && store.isLoading == old(store.isLoading) && store.error == old(store.error)
        && (reply.Success? ==>
              store.posts == PostStore.ReplaceById(old(store.posts), postId, reply.value.post))
        && (reply.Failure? ==> store.posts == old(store.posts))
        && store.currentPost == (if reply.Success? then Some(reply.value.post) else old(store.currentPost))
    {
      BlankInputIffWhitespaceOnly(commentText);
      if IsBlankInput(commentText) {
        return false;
      }
      var ok := store.AddComment(postId, commentText, reply);
      if ok {
        commentText := "";
      }
      sent := true;
    }
  }
}
