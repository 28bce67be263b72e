/** The entities the posts router works with: posts, the authenticated user,
    request bodies, the plain objects handed to the data-access layer, and
    what a handler finally does with a request (send a reply or forward an
    error to the error responder). */
module Model {

  datatype Option<+T> = None | Some(value: T)

  type PostId = nat
  type UserId = nat

  /** The user the authentication middleware attaches to a request. */
  datatype User = User(id: UserId)

  /** A stored post. `authorId` links it to its owner; `active == false`
      marks a soft-deleted post. */
  datatype Post = Post(
    id: PostId,
    authorId: UserId,
    title: string,
    content: string,
    active: bool,
    tags: seq<string>)

  /** The fields of a request body the handlers read; `None` is a field the
      client did not send (JavaScript `undefined`). */
  datatype Body = Body(title: Option<string>, content: Option<string>, tags: Option<string>)

  /** A value stored under a key of a plain JavaScript object. */
  datatype Value =
    | Undefined
    | Str(s: string)
    | StrList(items: seq<string>)
    | Num(n: int)
    | Bool(b: bool)

  /** A JavaScript object such as `postData` or `updateFields`: the keys it
      holds and the value under each. */
  type Fields = map<string, Value>

  /** JavaScript truthiness of an optional string: `undefined` and `""` are
      falsy, every other string is truthy. */
  predicate Truthy(v: Option<string>) {
    v.Some? && v.value != ""
  }

  /** What a body field holds once it is copied into an object. */
  function FromBody(v: Option<string>): Value {
    match v
    case None => Undefined
    case Some(s) => Str(s)
  }

  /** Which operation an ownership check refused. */
  datatype Attempt = UpdateAttempt | DeleteAttempt

  /** The error objects the handlers pass to `next`. `Passthrough` stands for
      a caught exception whose name and message are forwarded unchanged. */
  datatype ApiError =
    | PostCreationError
    | UnauthorizedUserError(attempt: Attempt)
    | PostNotFoundError
    | Passthrough

  /** The `name` of an error object the handlers build themselves. */
  function ErrorName(e: ApiError): string
    requires !e.Passthrough?
  {
    match e
    case PostCreationError => "PostCreationError"
    case UnauthorizedUserError(_) => "UnauthorizedUserError"
    case PostNotFoundError => "PostNotFoundError"
  }

  /** The `message` of an error object the handlers build themselves. */
  function ErrorMessage(e: ApiError): string
    requires !e.Passthrough?
  {
    match e
    case PostCreationError => "There was a problem creating the post"
    case UnauthorizedUserError(UpdateAttempt) => "You cannot update a post that is not yours"
    case UnauthorizedUserError(DeleteAttempt) => "You cannot delete a post which is not yours"
    case PostNotFoundError => "That post does not exist"
  }

  /** The body of `res.send`: `{post}` or `{posts}`. */
  datatype Reply = PostReply(post: Post) | PostsReply(posts: seq<Post>)

  /** A handler either sends a reply or forwards an error with `next`. */
  datatype Response = Sent(reply: Reply) | Forwarded(error: ApiError)

  /** What an awaited data-access call did: returned a value or threw. */
  datatype DbAnswer<+T> = Returned(value: T) | Raised
}
