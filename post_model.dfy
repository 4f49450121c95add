/**
 * The document schema of a post and its embedded comments
 * (server/models/post.model.js). Mongoose's required-field validation
 * becomes the validity predicates below; references to users are their ids.
 */
module PostModel {

  /** String form of a Mongo ObjectId referring to a user. */
  type UserId = string
  /** String form of a post's `_id`. */
  type PostId = string
  /** String form of an embedded comment's `_id`. */
  type CommentId = string
  /** A media URL returned by the upload provider. */
  type Url = string
  /** Milliseconds since the epoch, as `Date.now` returns them. */
  type Timestamp = int

  /** An embedded comment: its author, its text, and the time it was created
      (the schema's `default: Date.now`). */
  datatype Comment = Comment(id: CommentId, user: UserId, text: string, createdAt: Timestamp)

  /** The two ordered URL lists of a post. */
  datatype Media = Media(images: seq<Url>, videos: seq<Url>)

  /** A post document. `likes` is a plain array of user references and `comments`
      an ordered array of embedded comments; `createdAt`/`updatedAt` are the
      timestamps Mongoose maintains. */
  datatype Post = Post(
    id: PostId,
    user: UserId,
    content: string,
    media: Media,
    likes: seq<UserId>,
    comments: seq<Comment>,
    createdAt: Timestamp,
    updatedAt: Timestamp)

  /** Mongoose's `required` check on a String path rejects a missing value and
      the empty string; the user reference is always present in this model. */
  predicate RequiredString(s: string)
  {
    s != ""
  }

  /** A comment passes schema validation. */
  predicate ValidComment(c: Comment)
  {
    RequiredString(c.text)
  }

  /** A post passes schema validation, including each embedded comment. */
  predicate ValidPost(p: Post)
  {
    && RequiredString(p.content)
    && forall i :: 0 <= i < |p.comments| ==> ValidComment(p.comments[i])
  }

  /** No element of `s` occurs twice. The schema does not demand this of `likes`;
      the like toggle keeps it. */
  predicate NoDuplicates<T(==)>(s: seq<T>)
  {
    forall i, j :: 0 <= i < j < |s| ==> s[i] != s[j]
  }

  /** A freshly created post: empty likes and comments, both timestamps `now`. */
  function NewPost(id: PostId, user: UserId, content: string, media: Media, now: Timestamp): (p: Post)
    requires RequiredString(content)
    ensures ValidPost(p) && p.likes == [] && NoDuplicates(p.likes) && p.comments == []
    ensures p.id == id && p.user == user && p.content == content && p.media == media
    ensures p.createdAt == now && p.updatedAt == now
  {
    Post(id, user, content, media, [], [], now, now)
  }

  /** A comment created at `now` takes `now` as its `createdAt`, and is valid exactly
      when its text is non-empty. */
  function NewComment(id: CommentId, user: UserId, text: string, now: Timestamp): (c: Comment)
    ensures c.createdAt == now && c.user == user && c.text == text && c.id == id
    ensures ValidComment(c) <==> text != ""
  {
    Comment(id, user, text, now)
  }

  /** The schema itself does not forbid a user from appearing twice in `likes`. */
  lemma SchemaAllowsDuplicateLikes()
    ensures exists p :: ValidPost(p) && !NoDuplicates(p.likes)
  {
    var p := Post("p", "author", "hello", Media([], []), ["u", "u"], [], 0, 0);
    assert p.likes[0] == p.likes[1];
    assert ValidPost(p) && !NoDuplicates(p.likes);
  }
}
