/** The plain objects the create and patch handlers assemble, field by
    field, before calling the data-access layer: `postData` for
    `createPost` and `updateFields` for `updatePost`. */
module Payloads {
  import opened Model
  import opened Tokenizer

  /** The tags string the create handler reads: `tags = ""` when the body
      has none. */
  function CreateTags(body: Body): (t: string)
    ensures body.tags.Some? ==> t == body.tags.value
    ensures body.tags.None? ==> t == "" && AllSpace(t)
  {
    match body.tags
    case None => ""
    case Some(t) => t
  }

  /** The create handler's `postData`, as the router builds it. Because the
      tokenizer never returns an empty list, the guard `tagArr.length` always
      holds: `tags` is always sent, and a blank tags string sends `[""]`. */
  method BuildPostData(user: User, body: Body) returns (postData: Fields)
    ensures postData.Keys == {"tags", "authorId", "title", "content"}
    ensures postData["tags"] == StrList(Tokenize(CreateTags(body)))
    ensures postData["authorId"] == Num(user.id)
    ensures postData["title"] == FromBody(body.title)
    ensures postData["content"] == FromBody(body.content)
    ensures AllSpace(CreateTags(body)) ==> postData["tags"] == StrList([""])
  {
    var tagArr := Tokenize(CreateTags(body));
    TokenizeShape(CreateTags(body));
    postData := map[];
    if |tagArr| > 0 {
      postData := postData["tags" := StrList(tagArr)];
    }
    postData := postData["authorId" := Num(user.id)];
    postData := postData["title" := FromBody(body.title)];
    postData := postData["content" := FromBody(body.content)];
  }

  /** `postData` as the comment above the guard intends it: `tags` is sent
      only when there is a tag to send, and then holds only real tags. */
  method BuildPostDataIntended(user: User, body: Body) returns (postData: Fields)
    ensures "tags" in postData <==> !AllSpace(CreateTags(body))
    ensures "tags" in postData ==> postData["tags"] == StrList(Tokenize(CreateTags(body)))
    ensures "tags" in postData ==> forall t :: t in postData["tags"].items ==> IsTag(t)
    ensures postData.Keys - {"tags"} == {"authorId", "title", "content"}
    ensures postData["authorId"] == Num(user.id)
    ensures postData["title"] == FromBody(body.title)
    ensures postData["content"] == FromBody(body.content)
  {
    var tagArr := Tokenize(CreateTags(body));
    TokenizeShape(CreateTags(body));
    postData := map[];
    if tagArr != [""] {
      postData := postData["tags" := StrList(tagArr)];
    }
    postData := postData["authorId" := Num(user.id)];
    postData := postData["title" := FromBody(body.title)];
    postData := postData["content" := FromBody(body.content)];
  }

  /** The patch handler's `updateFields`: a key is present exactly when the
      matching body field is truthy, and no other key appears. The tags
      string is tested before it is trimmed, so a blank but non-empty one
      still sends `tags`. */
  method BuildUpdateFields(body: Body) returns (updateFields: Fields)
    ensures updateFields.Keys <= {"tags", "title", "content"}
    ensures "tags" in updateFields <==> Truthy(body.tags)
    ensures "title" in updateFields <==> Truthy(body.title)
    ensures "content" in updateFields <==> Truthy(body.content)
    ensures "tags" in updateFields ==> updateFields["tags"] == StrList(Tokenize(body.tags.value))
    ensures "title" in updateFields ==> updateFields["title"] == Str(body.title.value)
    ensures "content" in updateFields ==> updateFields["content"] == Str(body.content.value)
  {
    updateFields := map[];
    if body.tags.Some? && |body.tags.value| > 0 {
      updateFields := updateFields["tags" := StrList(Tokenize(body.tags.value))];
    }
    if Truthy(body.title) {
      updateFields := updateFields["title" := Str(body.title.value)];
    }
    if Truthy(body.content) {
      updateFields := updateFields["content" := Str(body.content.value)];
    }
  }
}
