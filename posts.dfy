/** The five request handlers of the posts router, over a post store that
    stands for the data-access layer. Create and the two list routes only
    decide a response from what the data-access call answered; patch and
    delete check existence and ownership and are the only operations that
    change the store. */
module Posts {
  import opened Model
  import opened Tokenizer
  import opened Visibility
  import opened Payloads

  // ---------------------------------------------------------------------
  // Create and list: responses from the data-access layer's answer.

  /** `POST /` after `createPost(postData)`: a created post is sent as
      `{post}`, a falsy answer becomes `PostCreationError`, a thrown
      exception is forwarded. */
  function CreateResponse(created: DbAnswer<Option<Post>>): (r: Response)
    ensures r.Sent? <==> created.Returned? && created.value.Some?
    ensures r.Sent? ==> r.reply == PostReply(created.value.value)
    ensures r == Forwarded(PostCreationError) <==> created == Returned(None)
    ensures r == Forwarded(Passthrough) <==> created.Raised?
  {
    match created
    case Raised => Forwarded(Passthrough)
    case Returned(None) => Forwarded(PostCreationError)
    case Returned(Some(post)) => Sent(PostReply(post))
  }

  /** `GET /` after `getAllPosts()`, and `GET /tags/:tagName/posts` after
      `getPostsByTagName(tagName)`: the fetched posts the requester may see,
      in the fetched order, as `{posts}`; a thrown exception is forwarded. */
  function ListResponse(fetched: DbAnswer<seq<Post>>, user: Option<User>): (r: Response)
    ensures r.Forwarded? <==> fetched.Raised?
    ensures r.Forwarded? ==> r.error == Passthrough
    ensures r.Sent? ==> r.reply.PostsReply? && IsSubsequence(r.reply.posts, fetched.value)
    ensures r.Sent? ==> forall p :: p in r.reply.posts <==> p in fetched.value && Visible(p, user)
    ensures r.Sent? ==> forall p :: multiset(r.reply.posts)[p] == if Visible(p, user) then multiset(fetched.value)[p] else 0
    ensures r.Sent? ==> r.reply.posts == FilterVisible(fetched.value, user)
  {
    match fetched
    case Raised => Forwarded(Passthrough)
    case Returned(all) =>
      FilterIsSubsequence(all, user);
      FilterCounts(all, user);
      Sent(PostsReply(FilterVisible(all, user)))
  }

  // ---------------------------------------------------------------------
  // The store: what `getPostById` and `updatePost` read and write.

  /** Every stored post sits under its own id. */
  ghost predicate StoreValid(posts: map<PostId, Post>) {
    forall id :: id in posts ==> posts[id].id == id
  }

  /** `updatePost(id, fields)` on one post: each field the object holds
      overwrites the post's field of that name; the id and the author are
      never touched. */
  function ApplyFields(p: Post, fields: Fields): (q: Post)
    ensures q.id == p.id && q.authorId == p.authorId
    ensures q.title == if "title" in fields && fields["title"].Str? then fields["title"].s else p.title
    ensures q.content == if "content" in fields && fields["content"].Str? then fields["content"].s else p.content
    ensures q.tags == if "tags" in fields && fields["tags"].StrList? then fields["tags"].items else p.tags
    ensures q.active == if "active" in fields && fields["active"].Bool? then fields["active"].b else p.active
    ensures fields.Keys !! {"title", "content", "tags", "active"} ==> q == p
  {
    var title := if "title" in fields && fields["title"].Str? then fields["title"].s else p.title;
    var content := if "content" in fields && fields["content"].Str? then fields["content"].s else p.content;
    var tags := if "tags" in fields && fields["tags"].StrList? then fields["tags"].items else p.tags;
    var active := if "active" in fields && fields["active"].Bool? then fields["active"].b else p.active;
    p.(title := title, content := content, tags := tags, active := active)
  }

  /** A handler's response together with the store it leaves behind. */
  datatype Outcome = Outcome(response: Response, posts: map<PostId, Post>)

  /** The post an author's patch produces: each truthy body field replaces
      the post's field of that name (tags after tokenizing), the rest stays. */
  function PatchedPost(p: Post, body: Body): Post {
    p.(title := if Truthy(body.title) then body.title.value else p.title,
       content := if Truthy(body.content) then body.content.value else p.content,
       tags := if Truthy(body.tags) then Tokenize(body.tags.value) else p.tags)
  }

  /** Writing an `updateFields` object built from `body` into a post gives
      the post an author's patch produces. */
  lemma ApplyUpdateFields(p: Post, body: Body, fields: Fields)
    requires fields.Keys <= {"tags", "title", "content"}
    requires "tags" in fields <==> Truthy(body.tags)
    requires "title" in fields <==> Truthy(body.title)
    requires "content" in fields <==> Truthy(body.content)
    requires "tags" in fields ==> fields["tags"] == StrList(Tokenize(body.tags.value))
    requires "title" in fields ==> fields["title"] == Str(body.title.value)
    requires "content" in fields ==> fields["content"] == Str(body.content.value)
    ensures ApplyFields(p, fields) == PatchedPost(p, body)
  {
    assert "active" !in fields;
  }

  /** `PATCH /:postId`. A missing post makes reading its author throw, which
      is forwarded; another user's post is refused; the author's post gets
      the truthy body fields. Only the author's patch changes the store, and
      only that post's title, content and tags. */
  function PatchOutcome(posts: map<PostId, Post>, user: User, id: PostId, body: Body): (o: Outcome)
    ensures o.response == Forwarded(Passthrough) <==> id !in posts
    ensures o.response == Forwarded(UnauthorizedUserError(UpdateAttempt)) <==> id in posts && posts[id].authorId != user.id
    ensures o.response.Sent? <==> id in posts && posts[id].authorId == user.id
    ensures o.response.Forwarded? ==> o.posts == posts
    ensures o.posts.Keys == posts.Keys
    ensures forall k :: k in posts && k != id ==> o.posts[k] == posts[k]
    ensures o.response.Sent? ==> o.response.reply == PostReply(o.posts[id])
    ensures id in posts ==>
              && o.posts[id].id == posts[id].id
              && o.posts[id].authorId == posts[id].authorId
              && o.posts[id].active == posts[id].active
    ensures o.response.Sent? ==>
              && o.posts[id].title == (if Truthy(body.title) then body.title.value else posts[id].title)
              && o.posts[id].content == (if Truthy(body.content) then body.content.value else posts[id].content)
              && o.posts[id].tags == (if Truthy(body.tags) then Tokenize(body.tags.value) else posts[id].tags)
    ensures StoreValid(posts) ==> StoreValid(o.posts)
  {
    if id !in posts then Outcome(Forwarded(Passthrough), posts)
    else if posts[id].authorId == user.id then
      var updated := PatchedPost(posts[id], body);
      Outcome(Sent(PostReply(updated)), posts[id := updated])
    else Outcome(Forwarded(UnauthorizedUserError(UpdateAttempt)), posts)
  }

  /** `DELETE /:postId`. A missing post is `PostNotFoundError`, another
      user's post is refused, and the author's post is soft-deleted: its
      `active` flag becomes false and nothing else in the store changes. */
  function DeleteOutcome(posts: map<PostId, Post>, user: User, id: PostId): (o: Outcome)
    ensures o.response == Forwarded(PostNotFoundError) <==> id !in posts
    ensures o.response == Forwarded(UnauthorizedUserError(DeleteAttempt)) <==> id in posts && posts[id].authorId != user.id
    ensures o.response.Sent? <==> id in posts && posts[id].authorId == user.id
    ensures o.response.Forwarded? ==> o.posts == posts
    ensures o.response.Sent? ==> o.posts == posts[id := posts[id].(active := false)]
    ensures o.response.Sent? ==> o.response.reply == PostReply(o.posts[id])
    ensures StoreValid(posts) ==> StoreValid(o.posts)
  {
    if id in posts && posts[id].authorId == user.id then
      var updated := ApplyFields(posts[id], map["active" := Bool(false)]);
      Outcome(Sent(PostReply(updated)), posts[id := updated])
    else
      Outcome(Forwarded(if id in posts then UnauthorizedUserError(DeleteAttempt) else PostNotFoundError), posts)
  }

  class PostStore {
    var posts: map<PostId, Post>

    ghost predicate Valid()
      reads this
    {
      StoreValid(posts)
    }

    constructor (initial: map<PostId, Post>)
      requires StoreValid(initial)
      ensures Valid() && posts == initial
    {
      posts := initial;
    }

    /** `getPostById(id)`: the stored post, or a falsy answer. */
    method GetPostById(id: PostId) returns (post: Option<Post>)
      ensures post.Some? <==> id in posts
      ensures post.Some? ==> post.value == posts[id]
    {
      if id in posts {
        post := Some(posts[id]);
      } else {
        post := None;
      }
    }

    /** `updatePost(id, fields)`: overwrite the given fields of a stored
      post and answer the post as it now is. */
    method UpdatePost(id: PostId, fields: Fields) returns (updated: Post)
      requires Valid() && id in posts
      modifies this
      ensures Valid()
      ensures posts == old(posts)[id := ApplyFields(old(posts)[id], fields)]
      ensures updated == posts[id]
    {
      updated := ApplyFields(posts[id], fields);
      posts := posts[id := updated];
    }

    /** The patch handler over this store. */
    method Patch(user: User, postId: PostId, body: Body) returns (response: Response)
      requires Valid()
      modifies this
      ensures Valid()
      ensures response == PatchOutcome(old(posts), user, postId, body).response
      ensures posts == PatchOutcome(old(posts), user, postId, body).posts
    {
      var updateFields := BuildUpdateFields(body);
      var originalPost := GetPostById(postId);
      if originalPost.None? {
        // `originalPost.author` throws on a missing post; the catch forwards it.
        response := Forwarded(Passthrough);
      } else if originalPost.value.authorId == user.id {
        ApplyUpdateFields(posts[postId], body, updateFields);
        var updatedPost := UpdatePost(postId, updateFields);
        response := Sent(PostReply(updatedPost));
      } else {
        response := Forwarded(UnauthorizedUserError(UpdateAttempt));
      }
    }

    /** The delete handler over this store. */
    method Delete(user: User, postId: PostId) returns (response: Response)
      requires Valid()
      modifies this
      ensures Valid()
      ensures response == DeleteOutcome(old(posts), user, postId).response
      ensures posts == DeleteOutcome(old(posts), user, postId).posts
    {
      var post := GetPostById(postId);
      if post.Some? && post.value.authorId == user.id {
        var updatedPost := UpdatePost(post.value.id, map["active" := Bool(false)]);
        response := Sent(PostReply(updatedPost));
      } else {
        response := Forwarded(if post.Some? then UnauthorizedUserError(DeleteAttempt) else PostNotFoundError);
      }
    }
  }

  // ---------------------------------------------------------------------
  // Properties across calls.

  /** Deleting twice is deleting once: the second delete answers the same
      and leaves the store as the first one left it. */
  lemma DeleteIdempotent(posts: map<PostId, Post>, user: User, id: PostId)
    ensures DeleteOutcome(DeleteOutcome(posts, user, id).posts, user, id) == DeleteOutcome(posts, user, id)
  {
    var first := DeleteOutcome(posts, user, id);
    if first.response.Sent? {
      assert first.posts[id] == posts[id].(active := false);
      assert first.posts[id].(active := false) == first.posts[id];
      assert first.posts[id := first.posts[id]] == first.posts;
    }
  }

  /** No handler brings a soft-deleted post back: patch keeps every post's
      `active` flag and delete only clears it. */
  lemma NoReactivation(posts: map<PostId, Post>, user: User, id: PostId, body: Body, k: PostId)
    requires k in posts && !posts[k].active
    ensures !PatchOutcome(posts, user, id, body).posts[k].active
    ensures !DeleteOutcome(posts, user, id).posts[k].active
  {
    if k == id {
      assert PatchOutcome(posts, user, id, body).posts[k].active == posts[k].active;
    }
  }

  /** The error objects the handlers build carry the router's own names and
      messages: a failed create, a refused patch, a refused delete and the
      delete of a missing post. */
  lemma HandlerErrors(posts: map<PostId, Post>, user: User, id: PostId, body: Body)
    ensures var e := CreateResponse(Returned(None)).error;
              ErrorName(e) == "PostCreationError" && ErrorMessage(e) == "There was a problem creating the post"
    ensures id in posts && posts[id].authorId != user.id ==>
              var e := PatchOutcome(posts, user, id, body).response.error;
              ErrorName(e) == "UnauthorizedUserError" && ErrorMessage(e) == "You cannot update a post that is not yours"
    ensures id in posts && posts[id].authorId != user.id ==>
              var e := DeleteOutcome(posts, user, id).response.error;
              ErrorName(e) == "UnauthorizedUserError" && ErrorMessage(e) == "You cannot delete a post which is not yours"
    ensures id !in posts ==>
              var e := DeleteOutcome(posts, user, id).response.error;
              ErrorName(e) == "PostNotFoundError" && ErrorMessage(e) == "That post does not exist"
  {
  }

  /** A patch by anyone but the author changes nothing, whatever the body. */
  lemma PatchByOtherUserChangesNothing(posts: map<PostId, Post>, user: User, id: PostId, body: Body)
    requires id !in posts || posts[id].authorId != user.id
    ensures PatchOutcome(posts, user, id, body).posts == posts
    ensures PatchOutcome(posts, user, id, body).response.Forwarded?
  {
  }

  /** An author's patch with an empty title and content and the tags
      string "z" replaces only the tags, with `["z"]`. */
  lemma PatchOnlyTags(posts: map<PostId, Post>, user: User, id: PostId)
    requires id in posts && posts[id].authorId == user.id
    ensures PatchOutcome(posts, user, id, Body(Some(""), Some(""), Some("z"))).posts[id] == posts[id].(tags := ["z"])
  {
    assert AllTags(["z"]);
    TokenizeJoin(["z"]);
    assert Join(["z"]) == "z";
  }

  /** An author's patch whose tags string is blank but not empty, such as a
      single blank, replaces the post's tags with `[""]`: the guard tests
      the length before trimming. */
  lemma PatchBlankTags(posts: map<PostId, Post>, user: User, id: PostId, body: Body)
    requires id in posts && posts[id].authorId == user.id
    requires body.tags.Some? && body.tags.value != "" && AllSpace(body.tags.value)
    ensures PatchOutcome(posts, user, id, body).posts[id].tags == [""]
  {
    TokenizeShape(body.tags.value);
  }
}
