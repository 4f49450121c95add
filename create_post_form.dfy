/**
 * The create-post form (client/src/components/post/CreatePostForm.jsx):
 * its `content`, `images` and `videos` state, the file-selection caps,
 * removal of a selected file, and the submit guards, form assembly and reset.
 */
module CreatePostForm {
  import opened Wrappers
  import opened Text
  import PostStore
  import PostController

  /** A file chosen in the browser. */
  datatype LocalFile = LocalFile(name: string, mimetype: string, size: nat)

  /** The `type` argument of the handlers. */
  datatype MediaKind = Images | Videos | OtherKind

  /** The client-side caps on one selection. */
  const MaxImages: nat := 5
  const MaxVideos: nat := 2

  /** `list.filter((_, i) => i !== index)`, walked from position `from`. */
  function FilterOutIndex(s: seq<LocalFile>, index: int, from: nat): (r: seq<LocalFile>)
    requires from <= |s|
    decreases |s| - from
    ensures from <= index < |s| ==> r == s[from..index] + s[index + 1..]
    ensures !(from <= index < |s|) ==> r == s[from..]
  {
    if from == |s| then []
    else (if from == index then [] else [s[from]]) + FilterOutIndex(s, index, from + 1)
  }

  /** `handleRemoveMedia`'s update: exactly the element at `index` goes and the
      rest keep their order; an index outside the list changes nothing. */
  function RemoveAtIndex(s: seq<LocalFile>, index: int): (r: seq<LocalFile>)
    ensures 0 <= index < |s| ==> |r| == |s| - 1 && r == s[..index] + s[index + 1..]
    ensures !(0 <= index < |s|) ==> r == s
  {
    FilterOutIndex(s, index, 0)
  }

  /** One entry of the submitted `FormData`. */
  datatype FormField = ContentField(text: string) | ImageField(file: LocalFile) | VideoField(file: LocalFile)

  /** `files.forEach(f => formData.append('images', f))` */
  function ImageFields(files: seq<LocalFile>): (r: seq<FormField>)
    ensures |r| == |files| && forall i :: 0 <= i < |files| ==> r[i] == ImageField(files[i])
  {
    if files == [] then [] else [ImageField(files[0])] + ImageFields(files[1..])
  }

  /** `files.forEach(f => formData.append('videos', f))` */
  function VideoFields(files: seq<LocalFile>): (r: seq<FormField>)
    ensures |r| == |files| && forall i :: 0 <= i < |files| ==> r[i] == VideoField(files[i])
  {
    if files == [] then [] else [VideoField(files[0])] + VideoFields(files[1..])
  }

  /** The submitted form: the content, then all images in order, then all videos in order. */
  function BuildFormData(content: string, images: seq<LocalFile>, videos: seq<LocalFile>): seq<FormField>
  {
    [ContentField(content)] + ImageFields(images) + VideoFields(videos)
  }

  /** The files the server finds under `images` in a form. */
  function ImagesOf(fd: seq<FormField>): seq<LocalFile>
  {
    if fd == [] then []
    else (if fd[0].ImageField? then [fd[0].file] else []) + ImagesOf(fd[1..])
  }

  /** The files the server finds under `videos` in a form. */
  function VideosOf(fd: seq<FormField>): seq<LocalFile>
  {
    if fd == [] then []
    else (if fd[0].VideoField? then [fd[0].file] else []) + VideosOf(fd[1..])
  }

  lemma {:induction false} ImagesOfAppend(a: seq<FormField>, b: seq<FormField>)
    ensures ImagesOf(a + b) == ImagesOf(a) + ImagesOf(b)
  {
    if a == [] {
      assert a + b == b;
    } else {
      assert (a + b)[0] == a[0];
      assert (a + b)[1..] == a[1..] + b;
      ImagesOfAppend(a[1..], b);
    }
  }

  lemma {:induction false} VideosOfAppend(a: seq<FormField>, b: seq<FormField>)
    ensures VideosOf(a + b) == VideosOf(a) + VideosOf(b)
  {
    if a == [] {
      assert a + b == b;
    } else {
      assert (a + b)[0] == a[0];
      assert (a + b)[1..] == a[1..] + b;
      VideosOfAppend(a[1..], b);
    }
  }

  lemma {:induction false} FieldsOfImages(files: seq<LocalFile>)
    ensures ImagesOf(ImageFields(files)) == files && VideosOf(ImageFields(files)) == []
  {
    if files != [] {
      FieldsOfImages(files[1..]);
      ImagesOfAppend([ImageField(files[0])], ImageFields(files[1..]));
      VideosOfAppend([ImageField(files[0])], ImageFields(files[1..]));
    }
  }

  lemma {:induction false} FieldsOfVideos(files: seq<LocalFile>)
    ensures VideosOf(VideoFields(files)) == files && ImagesOf(VideoFields(files)) == []
  {
    if files != [] {
      FieldsOfVideos(files[1..]);
      ImagesOfAppend([VideoField(files[0])], VideoFields(files[1..]));
      VideosOfAppend([VideoField(files[0])], VideoFields(files[1..]));
    }
  }

  /** The form the client submits carries its content first, and the server reads
      back exactly the selected images and videos, each in selection order. */
  lemma FormDataRoundTrip(content: string, images: seq<LocalFile>, videos: seq<LocalFile>)
    ensures var fd := BuildFormData(content, images, videos);
      && fd[0] == ContentField(content)
      && |fd| == 1 + |images| + |videos|
      && ImagesOf(fd) == images
      && VideosOf(fd) == videos
  {
    var head := [ContentField(content)];
    FieldsOfImages(images);
    FieldsOfVideos(videos);
    ImagesOfAppend(head + ImageFields(images), VideoFields(videos));
    ImagesOfAppend(head, ImageFields(images));
    VideosOfAppend(head + ImageFields(images), VideoFields(videos));
    VideosOfAppend(head, ImageFields(images));
    assert ImagesOf(head) == [] && VideosOf(head) == [] by {
      assert head[1..] == [];
    }
  }

  /** The submit guards, in the order the handler applies them: a toast message,
      or none when the form may be sent. */
  function SubmitError(content: string, images: seq<LocalFile>, videos: seq<LocalFile>): Option<string>
  {
    if IsBlankInput(content) then Some("Please enter some content.")
    else if images == [] && videos == [] then Some("Please upload at least one image or video.")
    else None
  }

  /** A form that passes the guards has non-whitespace content, which the server's
      own `!content` check accepts, and at least one file. */
  lemma SubmitGuardsMeanAcceptedContent(content: string, images: seq<LocalFile>, videos: seq<LocalFile>)
    ensures SubmitError(content, images, videos).None? <==>
      !IsWhitespaceOnly(content) && |images| + |videos| >= 1
    ensures SubmitError(content, images, videos).None? ==> !PostController.ContentMissing(Some(content))
  {
    BlankInputIffWhitespaceOnly(content);
  }

  /** The form fields after `handleSubmit` AS WRITTEN: the store's `createPost`
      catches every failure and does not rethrow, so once the guards pass the
      `try` block always reaches the reset, whatever the server replied. */
  function FieldsAfterSubmitAsWritten(
    content: string, images: seq<LocalFile>, videos: seq<LocalFile>, reply: PostStore.Reply<PostStore.PostEnvelope>)
    : (string, seq<LocalFile>, seq<LocalFile>)
  {
    if SubmitError(content, images, videos).Some? then (content, images, videos) else ("", [], [])
  }

  /** A rejected create still clears the form as written: the user loses the post. */
  lemma SubmitAsWrittenClearsOnFailure()
    ensures var f := LocalFile("a.png", "image/png", 1);
      && SubmitError("a", [f], []).None?
      && FieldsAfterSubmitAsWritten("a", [f], [], Wrappers.Failure("Failed to create post")) == ("", [], [])
  {
    BlankInputIffWhitespaceOnly("a");
    assert !IsJsWhitespace("a"[0]);
  }

  class CreatePostForm {
    var content: string
    var images: seq<LocalFile>
    var videos: seq<LocalFile>

    constructor ()
      ensures content == "" && images == [] && videos == []
    {
      content, images, videos := "", [], [];
    }

    /** `handleFileChange`: a selection over the cap is refused with a toast and
        leaves the list alone; an accepted selection replaces the list. */
    method HandleFileChange(files: seq<LocalFile>, kind: MediaKind) returns (refusal: Option<string>)
      modifies this
      ensures content == old(content)
      ensures kind == Images ==>
        && refusal.Some? == (|files| > MaxImages)
        && images == (if refusal.Some? then old(images) else files)
        && videos == old(videos)
      ensures kind == Videos ==>
        && refusal.Some? == (|files| > MaxVideos)
        && videos == (if refusal.Some? then old(videos) else files)
        && images == old(images)
      ensures kind == OtherKind ==> refusal.None? && images == old(images) && videos == old(videos)
    {
      refusal := None;
      match kind
      case Images =>
        if |files| > MaxImages {
          return Some("You can only upload a maximum of 5 images.");
        }
        images := files;
      case Videos =>
        if |files| > MaxVideos {
          return Some("You can only upload a maximum of 2 videos.");
        }
        videos := files;
      case OtherKind =>
    }

    /** `handleRemoveMedia` */
    method HandleRemoveMedia(index: int, kind: MediaKind)
      modifies this
      ensures content == old(content)
      ensures images == (if kind == Images then RemoveAtIndex(old(images), index) else old(images))
      ensures videos == (if kind == Videos then RemoveAtIndex(old(videos), index) else old(videos))
    {
      if kind == Images {
        images := RemoveAtIndex(images, index);
      } else if kind == Videos {
        videos := RemoveAtIndex(videos, index);
      }
    }

    /** `handleSubmit`, with the reset made conditional on the create succeeding
        (`reply` is the create request's outcome, `refetch` that of the feed
        reload that follows a success). */
    method HandleSubmit(store: PostStore.PostStore, reply: PostStore.Reply<PostStore.PostEnvelope>,
                        refetch: PostStore.Reply<PostStore.PostsEnvelope>)
      returns (sent: Option<seq<FormField>>)
      modifies this, store
      ensures SubmitError(old(content), old(images), old(videos)).Some? ==>
        && sent.None?
        && content == old(content) && images == old(images) && videos == old(videos)
        && unchanged(store)
      ensures SubmitError(old(content), old(images), old(videos)).None? ==>
        && sent == Some(BuildFormData(old(content), old(images), old(videos)))
        && !store.isLoading && store.currentPost == old(store.currentPost)
        && (reply.Success? ==> content == "" && images == [] && videos == [])
        && (reply.Success? && refetch.Success? ==> store.posts == refetch.value.posts && store.error == None)
        && (reply.Success? && refetch.Failure? ==> store.posts == old(store.posts) && store.error == Some(refetch.error))
        && (reply.Failure? ==>
              content == old(content) && images == old(images) && videos == old(videos)
              && store.error == Some(reply.error) && store.posts == old(store.posts))
    {
      if SubmitError(content, images, videos).Some? {
        return None;
      }
      var formData := BuildFormData(content, images, videos);
      store.CreatePost(reply, refetch);
      if reply.Success? {
        content, images, videos := "", [], [];
      }
      sent := Some(formData);
    }
  }
}
