# Social media feed: a verified model of its post logic

This project is a Dafny model of the post logic in a small social feed. The
feed is an Express/Mongoose server with a React client. Users create posts
that carry text and uploaded images and videos. They like and unlike posts,
and they add and delete comments. A separate page verifies a user's email
address with a six-digit code.

One module per source file:

- `PostModel` (server/models/post.model.js): the post and comment documents
  and the schema's required-field validation.
- `MulterMiddleware` (server/middlewares/multerMiddleware.js): the upload
  admission rule. It combines the 16-entry MIME allow-list, the 10 MiB size
  ceiling and the per-field count caps.
- `PostController` (server/controllers/post.controller.js): the post API
  handlers over a `PostCollection` class, a map from post id to post.
  - The like toggle, comment append and comment delete edit the loaded post.
  - The handlers keep a store invariant: every post sits under its own id,
    passes validation and has duplicate-free likes.
  - Uploading media goes through an abstract provider function.
- `PostStore` (client/src/store/postStore.js): the client's state container
  `posts` / `isLoading` / `error` / `currentPost` as a class. Each action
  takes the server's reply as a parameter.
- `CreatePostForm`, `PostCard` and `EmailVerification`: the form and widget
  state of the three client components, each as a class whose methods update
  its state.
- `Text`: JavaScript's `trim` and the blank-input guard.
- `Wrappers`: Option and Result.

The caller's identity, fresh ids, the clock and the upload provider are all
parameters. DOM focus is returned as the index of the slot that gets it.

Two behaviours of the code worth knowing:

- The server imposes no minimum number of media files on a new post. Only the
  client form insists on at least one.
- `updatePost` runs Mongoose's update validation before the query is sent, so
  an empty content is refused with 500 whether or not the post exists; the
  404 comes only for a non-empty content.

## Model

| member | source | states |
|---|---|---|
| Text.TrimStart | client/src/components/post/CreatePostForm.jsx:49 | `trim`'s left half: the result is a suffix, everything dropped is whitespace, and the result does not start with whitespace |
| Text.TrimEnd | client/src/components/post/CreatePostForm.jsx:49 | `trim`'s right half: the result is a prefix, everything dropped is whitespace, and the result does not end with whitespace |
| Text.Trim | client/src/components/post/CreatePostForm.jsx:49 | `trim`, TrimEnd after TrimStart; TrimEmptyIffWhitespaceOnly states when it is empty |
| Text.IsBlankInput | client/src/components/post/CreatePostForm.jsx:49 | the blank-input guard; BlankInputIffWhitespaceOnly states it is exactly "whitespace only" |
| Text.TrimEmptyIffWhitespaceOnly | client/src/components/post/CreatePostForm.jsx:49 | `s.trim() === ''` holds exactly when every character of `s` is whitespace |
| Text.BlankInputIffWhitespaceOnly | client/src/components/post/PostCard.jsx:45-48 | the client's guard `!s \|\| s.trim() === '' \|\| s === ' '` rejects exactly the whitespace-only strings |
| PostModel.RequiredString | server/models/post.model.js:26-29 | `required: true` on a String path: present and non-empty; NewPost and NewComment state what it means for a created document |
| PostModel.ValidComment | server/models/post.model.js:9-12 | a comment passes validation when its text is present; NewComment states it holds exactly for non-empty text |
| PostModel.ValidPost | server/models/post.model.js:19-52 | a post passes validation when its content is present and every embedded comment is valid; NewPost states created posts satisfy it and SchemaAllowsDuplicateLikes that it admits repeated likes |
| PostModel.NewPost | server/models/post.model.js:19-52 | a created post with a required content passes validation, has empty likes and comments, and has both timestamps at the creation time |
| PostModel.NewComment | server/models/post.model.js:3-17 | a new comment takes the creation time as `createdAt` and is valid exactly when its text is non-empty |
| PostModel.SchemaAllowsDuplicateLikes | server/models/post.model.js:38-43 | the schema admits a valid post whose `likes` holds the same user twice |
| MulterMiddleware.FileFilter | server/middlewares/multerMiddleware.js:6-28 | a file is accepted exactly when its MIME type is one of the 16 listed strings; a rejection carries that type |
| MulterMiddleware.RejectMessageNamesType | server/middlewares/multerMiddleware.js:27 | the rejection message contains the offending MIME type right after "File type " |
| MulterMiddleware.AcceptedTypesAreMedia | server/middlewares/multerMiddleware.js:6-23 | every accepted type is an image, video, application or audio type |
| MulterMiddleware.NearVariantsRejected | server/middlewares/multerMiddleware.js:24 | acceptance is exact string match: "image/jpg", "IMAGE/PNG" and "video/mp4 " are refused while "image/png" is accepted |
| MulterMiddleware.SizeCeiling | server/middlewares/multerMiddleware.js:35 | a file passes the size limit exactly when it holds at most 10485760 bytes (the bound at exactly 10485760 is taken as inclusive) |
| MulterMiddleware.JoinWith | server/middlewares/multerMiddleware.js:27 | `allowedTypes.join(", ")` inside the rejection text; RejectMessageNamesType states where the offending type sits in that text |
| MulterMiddleware.Message | server/middlewares/multerMiddleware.js:27 | the rejection text; RejectMessageNamesType states that it names the offending type |
| MulterMiddleware.WithinSizeLimit | server/middlewares/multerMiddleware.js:35 | the per-file ceiling; SizeCeiling states its bound |
| MulterMiddleware.FileError | server/middlewares/multerMiddleware.js:24-35 | one file's error: count cap, then filter, then size; FieldErrorFrom and RejectedTypeFailsField state its consequences for a field |
| MulterMiddleware.FieldErrorFrom | server/middlewares/multerMiddleware.js:24-35 | a field's remaining files raise no error exactly when the field is within its count cap and each file has an allowed type and size |
| MulterMiddleware.FieldError | server/controllers/post.controller.js:40-42 | one field of `upload.fields` raises no error exactly when it holds at most `maxCount` files, each of an allowed type and within the size ceiling |
| MulterMiddleware.RejectedTypeFailsField | server/middlewares/multerMiddleware.js:24-28 | a file of an unlisted type makes its field fail with the filter's error when no earlier file failed |
| PostController.RemoveAll | server/controllers/post.controller.js:169 | filtering out a user removes every occurrence of them and keeps every other user as often as before |
| PostController.RemoveAllAppend | server/controllers/post.controller.js:169 | the filter distributes over concatenation, so it keeps the order of the others |
| PostController.RemoveAllAbsent | server/controllers/post.controller.js:169 | filtering out a user who is not there changes nothing |
| PostController.RemoveAllKeepsNoDuplicates | server/controllers/post.controller.js:169 | the filter keeps a duplicate-free list duplicate-free |
| PostController.ToggleLike | server/controllers/post.controller.js:167-172 | the caller's membership flips; an absent caller is appended once at the end; other users' counts are unchanged |
| PostController.ToggleLikeKeepsOthersInOrder | server/controllers/post.controller.js:167-172 | in both cases the other users' entries keep their order |
| PostController.ToggleLikeTwiceRestores | server/controllers/post.controller.js:167-172 | liking and then unliking by a caller not in `likes` restores the original list |
| PostController.ToggleLikeKeepsNoDuplicates | server/controllers/post.controller.js:167-172 | a duplicate-free `likes` stays duplicate-free under the toggle |
| PostController.FindCommentIndex | server/controllers/post.controller.js:215-217 | `findIndex` returns -1 exactly when no comment has the id, and otherwise the first position that has it |
| PostController.AddThenDeleteRestores | server/controllers/post.controller.js:192-225 | a comment pushed with a fresh id is found at the end, and splicing it out restores the earlier comments |
| PostController.SpliceRemovesId | server/controllers/post.controller.js:225 | with unique ids, splicing out the found comment leaves no comment with that id and keeps the ids unique |
| PostController.PushKeepsUniqueIds | server/controllers/post.controller.js:196 | pushing a comment with a fresh id keeps the comment ids unique |
| PostController.UploadMedia | server/controllers/post.controller.js:14-35 | an empty buffer fails before any upload; the upload succeeds exactly when the provider returns a non-empty secure URL, and yields that URL |
| PostController.UploadAll | server/controllers/post.controller.js:56-73 | `Promise.all` over the uploads succeeds exactly when every file uploads, giving one URL per file in file order |
| PostController.UploadFieldsError | server/controllers/post.controller.js:40-46 | the upload middleware passes a request exactly when there are at most 5 images and 2 videos, each of an allowed type and size, and no file in any other field; once both declared fields pass, any error is "Unexpected field" |
| PostController.ContentMissing | server/controllers/post.controller.js:48-51 | `!content`; CreatePost states the 400 it causes and SubmitGuardsMeanAcceptedContent that the client form never sends such content |
| PostController.PostCollection.CreatePost | server/controllers/post.controller.js:38-91 | an upload error gives 400 with its message and a missing content gives 400, both before any upload. A failed image upload gives 500 "Failed to upload images: " with its error, and a failed video upload after successful images gives 500 "Failed to upload videos: ". On success the post holds the uploaded URLs in order, with empty likes and comments. Every error leaves the collection unchanged |
| PostController.PostCollection.GetPostById | server/controllers/post.controller.js:105-121 | an absent id gives 404; otherwise the stored post is returned |
| PostController.PostCollection.UpdatePost | server/controllers/post.controller.js:123-144 | an empty content gives 500 with the validation message whether or not the post exists; a non-empty content for an absent id gives 404. It succeeds exactly when the post exists and the new content is non-empty, and then only content and `updatedAt` change. Errors change nothing |
| PostController.PostCollection.DeletePost | server/controllers/post.controller.js:146-156 | an absent id gives 404 and changes nothing; otherwise exactly that post is removed and returned |
| PostController.PostCollection.LikePost | server/controllers/post.controller.js:159-179 | an absent id gives 404 and changes nothing. Otherwise `likes` is toggled with the matching message, and the store invariant, including duplicate-free likes, is kept |
| PostController.PostCollection.AddComment | server/controllers/post.controller.js:181-206 | a missing or empty text gives 400 before the lookup, and an absent post gives 404. On success exactly one comment by the caller with that text is appended. Errors change nothing |
| PostController.PostCollection.DeleteComment | server/controllers/post.controller.js:208-237 | an absent post gives 404, an unknown comment id 404 and a non-author caller 403, all leaving the post unchanged. On success exactly the first matching comment is spliced out and the length drops by one |
| PostStore.ReplaceById | client/src/store/postStore.js:102-105 | the list keeps its length; each post with the id becomes the returned post and every other entry is untouched |
| PostStore.RemoveById | client/src/store/postStore.js:59-62 | no post with the id remains, every other post stays, and nothing new appears |
| PostStore.RemoveByIdAppend | client/src/store/postStore.js:60 | the filter distributes over concatenation, so the rest keep their order |
| PostStore.RemoveByIdAbsent | client/src/store/postStore.js:60 | removing an id no post has leaves the list as it was |
| PostStore.ReplaceByIdKeepsIds | client/src/store/postStore.js:102-105 | replacing with a post of the same id keeps every entry's id |
| PostStore.UpdateListAsWritten | client/src/store/postStore.js:40-44 | as written, each post with the id is replaced by the whole reply body, and every other entry is untouched |
| PostStore.UpdateAsWrittenLosesId | client/src/store/postStore.js:40-44 | after the update as written, no entry carries the updated post's id |
| PostStore.PostStore.constructor | client/src/store/postStore.js:8-11 | the store starts with no posts, not loading, no error and no current post |
| PostStore.PostStore.BeginRequest | client/src/store/postStore.js:14 | loading starts and the error is cleared; `posts` and `currentPost` are kept |
| PostStore.PostStore.FailRequest | client/src/store/postStore.js:26-29 | the error is set to the message and loading ends; `posts` and `currentPost` are kept |
| PostStore.PostStore.FetchPosts | client/src/store/postStore.js:72-84 | on success `posts` is replaced wholesale; on failure `posts` is kept and the error set; loading ends either way |
| PostStore.PostStore.FetchPostById | client/src/store/postStore.js:85-97 | on success `currentPost` is the returned post; on failure it is kept and the error set; `posts` is never touched |
| PostStore.PostStore.CreatePost | client/src/store/postStore.js:13-31 | on success the feed is refetched; on failure `posts` is kept and the error set; nothing is rethrown |
| PostStore.PostStore.UpdatePost | client/src/store/postStore.js:33-52 | on success the posts with the id are replaced by the returned post and the post is refetched; on failure `posts` and `currentPost` are kept and the error set |
| PostStore.PostStore.DeletePost | client/src/store/postStore.js:54-70 | on success every post with the id leaves the list; on failure `posts` is kept and the error set |
| PostStore.PostStore.ApplyPostReply | client/src/store/postStore.js:98-156 | success replaces the posts with the id and sets `currentPost`; failure is reported and changes nothing; loading and error are never touched |
| PostStore.PostStore.LikePost | client/src/store/postStore.js:98-115 | as ApplyPostReply, for the like reply |
| PostStore.PostStore.AddComment | client/src/store/postStore.js:116-136 | as ApplyPostReply, for the add-comment reply |
| PostStore.PostStore.DeleteComment | client/src/store/postStore.js:138-156 | as ApplyPostReply, for the delete-comment reply |
| CreatePostForm.FilterOutIndex | client/src/components/post/CreatePostForm.jsx:40 | the index filter from position `from` drops exactly the element at `index` when it is in range |
| CreatePostForm.RemoveAtIndex | client/src/components/post/CreatePostForm.jsx:38-44 | exactly the element at `index` is removed and the rest keep their order; an index out of range changes nothing |
| CreatePostForm.BuildFormData | client/src/components/post/CreatePostForm.jsx:59-63 | the submitted form; FormDataRoundTrip states its layout and that the server reads back the selected files |
| CreatePostForm.ImageFields | client/src/components/post/CreatePostForm.jsx:62 | one `images` entry per selected image, in order |
| CreatePostForm.VideoFields | client/src/components/post/CreatePostForm.jsx:63 | one `videos` entry per selected video, in order |
| CreatePostForm.FieldsOfImages | client/src/components/post/CreatePostForm.jsx:62 | reading the image entries back gives the selected images and no videos |
| CreatePostForm.FieldsOfVideos | client/src/components/post/CreatePostForm.jsx:63 | reading the video entries back gives the selected videos and no images |
| CreatePostForm.FormDataRoundTrip | client/src/components/post/CreatePostForm.jsx:59-63 | the form carries the content first, then all images in order, then all videos in order, and the server reads back exactly those lists |
| CreatePostForm.SubmitError | client/src/components/post/CreatePostForm.jsx:49-57 | the two submit guards in order; SubmitGuardsMeanAcceptedContent states when they pass |
| CreatePostForm.FieldsAfterSubmitAsWritten | client/src/components/post/CreatePostForm.jsx:66-69 | the fields after submit as written, reset whatever the reply; SubmitAsWrittenClearsOnFailure exhibits a failed create that clears them |
| CreatePostForm.SubmitGuardsMeanAcceptedContent | client/src/components/post/CreatePostForm.jsx:49-57 | submit is allowed exactly when the content is not whitespace-only and at least one file is selected; such content passes the server's `!content` check |
| CreatePostForm.SubmitAsWrittenClearsOnFailure | client/src/components/post/CreatePostForm.jsx:66-69 | as written, a form that passes the guards is cleared even when the create request failed |
| CreatePostForm.CreatePostForm.constructor | client/src/components/post/CreatePostForm.jsx:10-12 | the form starts with empty content and no files |
| CreatePostForm.CreatePostForm.HandleFileChange | client/src/components/post/CreatePostForm.jsx:16-37 | more than 5 images or 2 videos is refused and the list left alone; an accepted selection replaces the list; the other list and the content are kept |
| CreatePostForm.CreatePostForm.HandleRemoveMedia | client/src/components/post/CreatePostForm.jsx:38-44 | the chosen list loses exactly the element at `index`; the other list and the content are kept |
| CreatePostForm.CreatePostForm.HandleSubmit | client/src/components/post/CreatePostForm.jsx:46-76 | a guarded form sends nothing and changes nothing. Otherwise it sends the assembled form, and the fields are reset only when the create succeeded. On failure the fields are kept and the store holds the error |
| PostCard.MediaLength | client/src/components/post/PostCard.jsx:29-30 | the slide count with missing lists as 0; AllMediaMatchesLength and ServerPostMedia state its value |
| PostCard.AllMedia | client/src/components/post/PostCard.jsx:130-133 | the slides; AllMediaMatchesLength states they are the images then the videos |
| PostCard.NextIndex | client/src/components/post/PostCard.jsx:100-105 | the next-slide step; StepsKeepIndexInRange and StepsUndoEachOther state its bounds and inverse |
| PostCard.PrevIndex | client/src/components/post/PostCard.jsx:107-112 | the previous-slide step; StepsKeepIndexInRange and StepsUndoEachOther state its bounds and inverse |
| PostCard.AllMediaMatchesLength | client/src/components/post/PostCard.jsx:130-133 | the slides are the images followed by the videos, and there are `mediaLength` of them, with missing lists counting as empty |
| PostCard.ServerPostMedia | client/src/components/post/PostCard.jsx:29-30 | for a post from the server, `mediaLength` is the image count plus the video count |
| PostCard.StepsKeepIndexInRange | client/src/components/post/PostCard.jsx:100-112 | next and previous keep the index in [0, max(0, mediaLength-1)] |
| PostCard.StepsUndoEachOther | client/src/components/post/PostCard.jsx:100-112 | from an index that can advance, next then previous returns to it, and the other way round |
| PostCard.MediaCarousel.constructor | client/src/components/post/PostCard.jsx:28 | the carousel starts on slide 0, within range |
| PostCard.MediaCarousel.HandleNext | client/src/components/post/PostCard.jsx:100-105 | the index advances by one only when it is below mediaLength-1, and stays in range |
| PostCard.MediaCarousel.HandlePrev | client/src/components/post/PostCard.jsx:107-112 | the index goes back by one only when it is above 0, and stays in range |
| PostCard.ShowsLiked | client/src/components/post/PostCard.jsx:216-220 | the filled heart; LikedIndicatorFlips states it flips with the server toggle |
| PostCard.LikeCount | client/src/components/post/PostCard.jsx:221 | the shown like count; LikeCountAfterToggle states it moves by one per toggle |
| PostCard.LikedIndicatorFlips | client/src/components/post/PostCard.jsx:216-220 | after the server's toggle the heart shows exactly when it did not before |
| PostCard.LikeCountAfterToggle | client/src/components/post/PostCard.jsx:221 | with duplicate-free likes the shown count moves by exactly one on each toggle |
| PostCard.PopulatesCommentAuthors | server/controllers/post.controller.js:105-113 | which replies populate `comments.user` (by id, update, add and delete comment; not the feed or the like reply); ReceivedAuthor, DeleteControlMatchesServer and BareAuthorsMisplaceDeleteControl state its consequences |
| PostCard.ReceivedAuthor | server/controllers/post.controller.js:94-113 | a comment's author reaches the client as a populated user object exactly in the replies that populate `comments.user` (by id, update, add and delete comment), otherwise as a bare id |
| PostCard.ShowsDeleteControl | client/src/components/post/PostCard.jsx:287 | the delete control as written; DeleteControlMatchesServer and BareAuthorsMisplaceDeleteControl state when it agrees with the server and when not |
| PostCard.DeleteControlMatchesServer | client/src/components/post/PostCard.jsx:287 | in a post with populated comment authors and unique comment ids, the delete control shows exactly on comments the server lets the signed-in user delete |
| PostCard.BareAuthorsMisplaceDeleteControl | client/src/components/post/PostCard.jsx:287 | as written, with bare author ids (feed and like replies) the author sees no delete control on a comment the server would let them delete, and a client whose auth store holds no user sees it on every comment |
| PostCard.DeleteControlByAuthorIdMatchesServer | client/src/components/post/PostCard.jsx:287 | compared on the author's id, the control shows exactly on the comments the server lets the signed-in user delete, whichever reply the post came in |
| PostCard.CommentBox.constructor | client/src/components/post/PostCard.jsx:26 | the comment box starts empty |
| PostCard.CommentBox.HandleAddComment | client/src/components/post/PostCard.jsx:43-55 | whitespace-only text is refused with no request and no change; otherwise the text is cleared only when the store reports success, and the store's loading and error are untouched |
| EmailVerification.PastedCode | client/src/pages/authPages/EmailVerificationPage.jsx:18-22 | a paste gives six slots, slot i holding the i-th character of the first six or empty |
| EmailVerification.LastFilledIndex | client/src/pages/authPages/EmailVerificationPage.jsx:24 | `findLastIndex` gives a filled slot with only empty slots after it, or -1 |
| EmailVerification.FocusAfterPaste | client/src/pages/authPages/EmailVerificationPage.jsx:24-25 | the focus after a paste; PasteFocus states it in closed form |
| EmailVerification.PasteFocus | client/src/pages/authPages/EmailVerificationPage.jsx:24-26 | after a paste, focus goes to the first empty slot, or to slot 5 when six or more characters were pasted |
| EmailVerification.FocusAfterInput | client/src/pages/authPages/EmailVerificationPage.jsx:30-32 | focus moves to index+1 exactly when something was typed and index < 5 |
| EmailVerification.FocusAfterKeyDown | client/src/pages/authPages/EmailVerificationPage.jsx:36-40 | Backspace on an empty slot after the first moves focus to index-1, and nothing else moves focus |
| EmailVerification.AllFilled | client/src/pages/authPages/EmailVerificationPage.jsx:55-58 | `code.every(digit => digit !== '')`, the auto-submit condition; HandleChange submits exactly when it holds, and SubmitEnabledIffReady and PasteSixThenJoin relate it to the button and to pasting |
| EmailVerification.SubmitDisabled | client/src/pages/authPages/EmailVerificationPage.jsx:100 | the button's disabled state; SubmitEnabledIffReady states when it is enabled |
| EmailVerification.Join | client/src/pages/authPages/EmailVerificationPage.jsx:44 | `code.join('')`; JoinOfSingleSlots and PasteSixThenJoin state what it yields |
| EmailVerification.SubmitEnabledIffReady | client/src/pages/authPages/EmailVerificationPage.jsx:100 | the button is enabled exactly when not loading and every slot is filled |
| EmailVerification.JoinOfSingleSlots | client/src/pages/authPages/EmailVerificationPage.jsx:44 | joining six filled single-character slots gives one character per slot, in order |
| EmailVerification.PasteSixThenJoin | client/src/pages/authPages/EmailVerificationPage.jsx:18-22 | pasting six or more characters fills every slot, and the joined code is the first six characters pasted |
| EmailVerification.DistributePaste | client/src/pages/authPages/EmailVerificationPage.jsx:17-22 | the copy-and-overwrite loop yields exactly the pasted code |
| EmailVerification.CodeEntry.constructor | client/src/pages/authPages/EmailVerificationPage.jsx:10 | the code starts as six empty slots |
| EmailVerification.CodeEntry.HandleChange | client/src/pages/authPages/EmailVerificationPage.jsx:16-34 | a paste overwrites all six slots and focuses after the last filled one. A single character writes slot `index` only and moves focus on. The code stays six single-character slots, and the six-character join is submitted exactly when every slot is filled |

## Left out

- Cloudinary configuration and upload streaming: the provider is an abstract function from bytes and resource type to a reply.
- Mongoose persistence (`find`, `findById`, `save`, the user names that `populate` adds, `getAllPosts` and its newest-first sort) is library behaviour. The database is a map from id to post.
- By-id handlers: ids are taken to be well-formed ObjectIds. In the program an `:id` that is not one makes the lookup throw a cast error, answered with 500 and its message instead of 404.
- MulterMiddleware.WithinSizeLimit: whether a file of exactly 10485760 bytes passes is decided by busboy, which is not part of this model; the model takes the bound as inclusive.
- Concurrent read-modify-write saves of one post (last write wins): the handlers run one at a time.
- Multipart parsing and in-memory buffering: a file is its MIME type and bytes, grouped by the field it was sent in (`images`, `videos`, or any other field). Busboy's interleaving of the parts is not modelled. The model checks images first, then videos, then files in other fields, and within a field the count cap, then the filter, then the size; when several files fail, the program reports whichever part arrived first.
- Several failing uploads in one `Promise.all`: which rejection settles first depends on timing. The model takes the first in file order.
- PostController.PostCollection.UpdatePost: a request with `content` absent is not modelled. It is a no-op `$set` in Mongoose; the model takes a string.
- PostController.PostCollection.CreatePost: the unexpected-error branch (500 "An unexpected error occurred") guards against exceptions the model cannot raise.
- PostController.PostCollection.CreatePost: the insert failure is modelled as a duplicate id. Other database failures are not.
- Route wiring, the authentication middleware and the user lookup: the caller's id is a parameter.
- PostStore.PostStore.CreatePost: the program does not await its `fetchPosts` refetch, so the action returns while that refetch is still loading and its posts or error arrive later, after the form has already reset. The model runs the refetch to completion inside the action; its ensures describe the state after the refetch finishes.
- PostStore.PostStore.UpdatePost: likewise the `fetchPostById` refetch is not awaited; the model runs it inside the action and its ensures describe the state after it finishes.
- axios, zustand `create`, toasts, console logging and navigation: toast messages are returned as values where they decide behaviour, and otherwise dropped.
- Animation (framer-motion variants and `offsetWidth` pixel offsets), date formatting, object-URL previews and JSX rendering.
- DOM focus: each handler returns the index of the slot that receives focus.
- EmailVerification.CodeEntry.HandleChange: lengths and `split('')` are taken over Unicode characters, not UTF-16 code units. A single character outside the Basic Multilingual Plane (an emoji) has length 2 in the program, so it is handled as a paste that writes its two surrogate halves into two slots and moves focus to slot 2; the model writes it into one slot.
- PostCard: a comment whose author was deleted is populated as `null` in the program, and the control's `comment.user._id` then throws; authors are always present in the model.
- `verifyEmail` itself: HandleChange returns the code it would submit.
- The feed page and the environment configuration have no logic to model.

## Findings

| source | as written | input that shows it | evidently intended | confidence | as-written member | corrected member |
|---|---|---|---|---|---|---|
| client/src/store/postStore.js:40-44 | `posts.map(post => post._id === postId ? data : post)` stores the reply body `{ post }` in the list | any successful update of a post that is in the list | store `data.post`, the updated post, as the other actions do | not executed | PostStore.UpdateAsWrittenLosesId | PostStore.PostStore.UpdatePost |
| client/src/store/postStore.js:26-30 | the store's `createPost` catches the failure without rethrowing, so the form's `try` at CreatePostForm.jsx:66-72 always resets and reports success | content "a", one image, server reply "Failed to create post" | keep the form's content and files when the create failed | not executed | CreatePostForm.SubmitAsWrittenClearsOnFailure | CreatePostForm.CreatePostForm.HandleSubmit |
| client/src/components/post/PostCard.jsx:287 | `user?._id === comment.user._id` reads `_id` of the comment's author, which is a bare id string in posts from the feed and like replies (server/controllers/post.controller.js:94-97, 175) | a signed-in user viewing their own comment in the feed | compare the signed-in user's id with the author's id whether or not the author was populated | not executed | PostCard.BareAuthorsMisplaceDeleteControl | PostCard.DeleteControlByAuthorIdMatchesServer |
