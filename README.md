# Juicebox posts router, modelled in Dafny

This project models the request handlers of the Juicebox blog API's posts
router (`api/posts.js`). The router has five routes:

- **create** (`POST /`) builds a `postData` object and hands it to `createPost`.
- **patch** (`PATCH /:postId`) builds an `updateFields` object. It lets only
  the post's author apply it.
- **list** (`GET /`) and **list by tag** (`GET /tags/:tagName/posts`) fetch
  posts and drop the inactive posts the requester did not write.
- **delete** (`DELETE /:postId`) soft-deletes a post. The author's post gets
  `active: false`; a missing post or another user's post is refused.

The model has five modules:

- `Model` (`model.dfy`): posts, the logged-in user, request bodies, the
  JavaScript objects handed to the data-access layer (`map<string, Value>`),
  the error objects passed to `next`, and responses. A response either sends
  a reply or forwards an error.
- `Tokenizer` (`tokenizer.dfy`): `tags.trim().split(/\s+/)` as pure functions,
  `Trim` and `Split`, plus lemmas about the tokens. `Split` walks the string
  with two indices, as the ECMAScript algorithm does.
- `Visibility` (`visibility.dfy`): the filter both list routes use, with
  lemmas on order, membership and multiplicity.
- `Payloads` (`payloads.dfy`): the step-by-step builders of `postData` and
  `updateFields`, as methods.
- `Posts` (`posts.dfy`): the handlers, split in two.
  - Create and list compute their response from what the awaited
    data-access call answered. That answer is a parameter.
  - Patch and delete are methods of the class `PostStore`. The class holds
    the stored posts in a `map` field, and the methods change it through
    `UpdatePost`. Each method is specified by a pure function
    (`PatchOutcome`, `DeleteOutcome`). The function gives the response and
    the new store, and the lemmas about them are stated over those functions.

The data-access module (`../db`) is not part of this model.

- `getPostById` and `updatePost` are played by the store. `ApplyFields` is
  the assumed meaning of `updatePost`: each key of the object overwrites the
  post's field of that name.
- What `createPost`, `getAllPosts` and `getPostsByTagName` answer is a
  parameter: a value, or an exception (`Raised`).

Three behaviours of the code are easy to misread:

- **Create with blank tags.** The comment at api/posts.js:12 says the tags
  are sent only when there are some. The guard at api/posts.js:13 tests the
  length of the split result, which is never zero. So the code always sends
  `tags`, and an absent, empty or blank tags string sends `[""]`. See
  "Findings".
- **Patch with blank tags.** The guard at api/posts.js:48 tests the length of
  the untrimmed string. A blank but non-empty string passes it, so the
  post's tags become `[""]` (`Posts.PatchBlankTags`).
- **Patch of a missing post.** api/posts.js:63 reads `originalPost.author`
  off the falsy answer of `getPostById`. That throws, and the catch at
  api/posts.js:72-74 forwards the exception like any other. The model gives
  this as `Passthrough`, not `PostNotFoundError`.

## Model

| member | source | states |
|---|---|---|
| `Tokenizer.IsSpace` | api/posts.js:9 | the `\s` character class and the characters `trim` removes; on ASCII these are exactly the blank, tab, line feed, vertical tab, form feed and carriage return |
| `Tokenizer.Trim` | api/posts.js:9 | the trimmed string starts and ends with a non-white-space character, and it is empty exactly when the input is all white space |
| `Tokenizer.TrimKeepsText` | api/posts.js:9 | trimming removes white space and nothing else |
| `Tokenizer.Split` | api/posts.js:9 | `split(/\s+/)`: at least one piece, none holding white space; the empty string gives `[""]` and a string without white space gives itself alone |
| `Tokenizer.SplitFrom` | api/posts.js:9 | splitting on `/\s+/` from any start index gives at least one piece, and no piece holds white space |
| `Tokenizer.SplitFromPiecesNonEmpty` | api/posts.js:9 | splitting from a non-white-space character of a string that does not end in white space gives non-empty pieces only |
| `Tokenizer.SplitFromKeepsText` | api/posts.js:9 | the pieces, glued back together, are the input from the start index on without its white space, in order |
| `Tokenizer.TrimFrame` | api/posts.js:9 | the input is its leading white space, its trimmed text and its trailing white space |
| `Tokenizer.SplitFromInterleave` | api/posts.js:9 | where the text from the start index is tags separated by non-empty runs of white space, splitting gives those tags |
| `Tokenizer.Tokenize` | api/posts.js:9 | `tags.trim().split(/\s+/)`, used by create and patch (api/posts.js:49): at least one token, none holding white space, and `[""]` for blank input |
| `Tokenizer.TokenizeShape` | api/posts.js:9 | the tokenizer returns at least one token and no token holds white space; an empty or blank input gives exactly `[""]`; any other input gives only non-empty tokens (an empty token appears exactly when the input is blank) |
| `Tokenizer.TokenizeKeepsText` | api/posts.js:49 | the tokens, glued together, are the tags string's non-white-space characters in order |
| `Tokenizer.TokenizeInterleave` | api/posts.js:9 | non-empty, white-space-free tags separated by any non-empty runs of white space (blanks, tabs, line breaks, several in a row), with any white space before and after, tokenize back into exactly those tags |
| `Tokenizer.TokenizeJoin` | api/posts.js:9 | tokenizing non-empty, white-space-free tags joined by single blanks gives the tags back |
| `Tokenizer.TokenizeTwoTags` | api/posts.js:9 | the tags string "x y" becomes `["x", "y"]` |
| `Tokenizer.TokenizeMixedSpace` | api/posts.js:9 | the tags string " a  b\t", with leading, doubled and trailing white space of two kinds, becomes `["a", "b"]` |
| `Visibility.Visible` | api/posts.js:88 | the test the filters apply (also api/posts.js:130): an active post is always visible, a logged-in author always sees their own post, and without a user exactly the active posts are visible |
| `Visibility.FilterVisible` | api/posts.js:87-89 | a fetched post is kept exactly when it is active, or a user is logged in and wrote it; the result is no longer than the input |
| `Visibility.FilterIsSubsequence` | api/posts.js:87-89 | the filter keeps the fetched order: its result is a subsequence of its input |
| `Visibility.FilterCounts` | api/posts.js:129-131 | each visible post is kept as often as it was fetched, and no hidden post is kept |
| `Visibility.AnonymousSeesActive` | api/posts.js:87-89 | without a logged-in user the result holds exactly the active posts, each as often as fetched |
| `Visibility.AuthorSeesOwnPosts` | api/posts.js:129-131 | a logged-in user sees all of their own fetched posts, active or not, and only the active posts of other authors |
| `Visibility.FilterKeepsAllVisible` | api/posts.js:87-89 | when every fetched post is visible, the filter returns the input unchanged |
| `Payloads.CreateTags` | api/posts.js:7 | the tags string create reads: the body's string when given, otherwise the default `""`, which is blank |
| `Payloads.BuildPostData` | api/posts.js:7-21 | `postData` holds the keys `tags`, `authorId`, `title` and `content` and no others. `tags` is the tokenized tags string (an absent string counts as `""`), so it is always present, and it is `[""]` for blank input. `authorId` is the requester's id. `title` and `content` are copied unchanged, `undefined` included |
| `Payloads.BuildPostDataIntended` | api/posts.js:12-15 | the corrected builder: `tags` is present exactly when the tags string is not blank, and then every tag is non-empty and free of white space; the other keys are as in `BuildPostData` |
| `Payloads.BuildUpdateFields` | api/posts.js:44-58 | `updateFields` has only the keys `tags`, `title` and `content`. Each key is present exactly when its body field is truthy. `title` and `content` are copied; `tags` is the tokenized string |
| `Posts.CreateResponse` | api/posts.js:24-38 | a created post is sent as `{post}` holding exactly that post; a falsy answer is forwarded as `PostCreationError`; an exception is forwarded unchanged. Each of the three outcomes happens exactly in its case |
| `Posts.ListResponse` | api/posts.js:83-97 | a failed fetch is forwarded; otherwise the reply `{posts}` is exactly the filtered fetched list: a subsequence of it in fetched order, holding each visible post as often as it was fetched and no hidden post, so `FilterCounts`, `AnonymousSeesActive` and `AuthorSeesOwnPosts` hold of the reply. Both list routes run this (api/posts.js:123-139 is the same code) |
| `Posts.ApplyFields` | api/posts.js:64 | the assumed meaning of `updatePost(id, fields)` (also api/posts.js:104), which is not part of this model: each `title`, `content`, `tags` or `active` key of the object holding a value of the right kind overwrites that field and every other field stays, the post's id and author never change, and an object with none of those keys leaves the post as it is |
| `Posts.PostStore.GetPostById` | api/posts.js:61 | `getPostById(postId)` (also api/posts.js:101) over the store: the stored post when the id is present, a falsy answer exactly when it is not |
| `Posts.PostStore.UpdatePost` | api/posts.js:64 | `updatePost(id, fields)` (also api/posts.js:104) over the store: the stored post becomes `ApplyFields` of it, every other post stays, store validity is kept, and the updated post is answered |
| `Posts.ApplyUpdateFields` | api/posts.js:46-58 | writing an `updateFields` object built from a body into a post gives the post's title, content and tags exactly as an author's patch sets them, and leaves the rest alone |
| `Posts.PatchOutcome` | api/posts.js:60-74 | a missing post is forwarded as an exception; another user's post gets `UnauthorizedUserError`; in both cases the store is unchanged. The author's post gets each truthy body field (tags tokenized). Its id, author and `active` flag stay, every other post stays, and the updated post is sent. Store validity is kept |
| `Posts.DeleteOutcome` | api/posts.js:100-120 | a missing post gives `PostNotFoundError`; another user's post gives `UnauthorizedUserError`; in both cases the store is unchanged. The author's post has only `active` set to false, nothing else in the store changes, and the updated post is sent |
| `Posts.PostStore.Patch` | api/posts.js:42-75 | the patch handler over the store: it builds `updateFields`, looks the post up, checks the author and updates. Its response and the new store are those of `PatchOutcome` |
| `Posts.PostStore.Delete` | api/posts.js:99-121 | the delete handler over the store: it looks the post up, checks that it exists and that the requester wrote it, and calls `updatePost(post.id, {active: false})`. Its response and the new store are those of `DeleteOutcome` |
| `Model.ErrorName` | api/posts.js:31-34 | the `name` of each error object the handlers build (also api/posts.js:67-70 and :109-115); `Posts.HandlerErrors` states which handler uses which |
| `Model.ErrorMessage` | api/posts.js:67-70 | the `message` of each error object the handlers build (also api/posts.js:31-34 and :109-115); `Posts.HandlerErrors` states which handler uses which |
| `Posts.HandlerErrors` | api/posts.js:109-115 | a falsy create answer forwards `PostCreationError` / "There was a problem creating the post" (api/posts.js:31-34); a non-author's patch forwards `UnauthorizedUserError` / "You cannot update a post that is not yours" (api/posts.js:67-70); a non-author's delete forwards `UnauthorizedUserError` / "You cannot delete a post which is not yours"; the delete of a missing post forwards `PostNotFoundError` / "That post does not exist" |
| `Posts.DeleteIdempotent` | api/posts.js:103-106 | deleting the same post a second time gives the same response and the same store as deleting it once |
| `Posts.NoReactivation` | api/posts.js:103-106 | no patch or delete turns an inactive post active again |
| `Posts.PatchByOtherUserChangesNothing` | api/posts.js:63-71 | a patch of a missing post or of another user's post leaves the store unchanged and forwards an error, whatever the body |
| `Posts.PatchOnlyTags` | api/posts.js:46-58 | an author's patch with empty title and content and the tags "z" changes only the tags, to `["z"]` |
| `Posts.PatchBlankTags` | api/posts.js:48-50 | an author's patch with a blank but non-empty tags string sets the post's tags to `[""]` |

## Left out

- Express plumbing is not modelled: the router, the `requireUser` middleware
  and the logging middleware (api/posts.js:77-81). The logged-in user is a
  parameter: `User` for the routes that require one, `Option<User>` for the
  list routes.
- `index.js` is not modelled. It holds the server, the middleware wiring and
  the database connection; none of it decides anything about posts.
- `async`/`await`, `res.send` and `next` are not modelled as calls. A handler
  returns a `Response`: `Sent` for `res.send`, `Forwarded` for `next`.
- The `../db` module is not part of this model.
  - What `createPost`, `getAllPosts` and `getPostsByTagName` answer is a
    parameter.
  - Whether `createPost` adds the new post to the store is not modelled, and
    neither is how the tag relations are managed.
- Exceptions thrown inside `getPostById` or `updatePost` during patch and
  delete are not modelled. The only exception modelled there is the one the
  patch handler raises itself when it reads the author of a missing post.
- The `name` and `message` of forwarded exceptions are not modelled. They form
  one opaque error, `Passthrough`. The error objects the handlers build
  themselves keep their exact names and messages (`ErrorName`,
  `ErrorMessage`).
- Body fields that are neither a string nor absent are not modelled. In
  create, such a `tags` value makes `tags.trim()` throw outside the `try`
  block (api/posts.js:7-9). In patch, a falsy one (`null`, `false`, `0`) or
  one without a positive `length` (`true`, a number) fails the guard at
  api/posts.js:48, so `tags` is left out silently.
- The `postId` route parameter is modelled as a natural number. The
  data-access layer's conversion from the URL string is not modelled.
- The JavaScript regular-expression engine is not modelled. `\s` is the fixed
  set of WhiteSpace and LineTerminator code points (`Tokenizer.IsSpace`).
  Strings are sequences of characters.

## Findings

| source | as written | input that shows it | evidently intended | confidence | as-written member | corrected member |
|---|---|---|---|---|---|---|
| api/posts.js:13 | `if (tagArr.length)` always holds, because `split` never returns an empty list. So `postData.tags` is always set, and a missing, empty or blank tags string sends the tag list `[""]` | create with a body with no `tags`, or with `tags: "  "`: `postData.tags` is `[""]` | the comment on line 12: send `tags` only when there are tags, i.e. when the tags string is not blank | high; not executed | `Payloads.BuildPostData` (its last ensures clause, with `Tokenizer.TokenizeShape`) | `Payloads.BuildPostDataIntended` |

No other member depends on the `postData` object, because what `createPost`
answers is a parameter of `Posts.CreateResponse`. The corrected builder
therefore replaces the as-written one only where `postData` itself is stated.
