/** The `Comment` record: trimmed required content, required author and
    blogId, the soft-delete flag and its default. */
module CommentSchema {
  import opened Base
  import opened UserSchema
  import opened BlogSchema

  type CommentId = ObjectId

  datatype Comment = Comment(
    id: CommentId,
    content: string,
    author: UserId,
    blogId: BlogId,
    isDeleted: bool,
    createdAt: int)   // the `timestamps` field, in milliseconds

  ghost predicate WellFormed(c: Comment)
  {
    c.content != "" && Trim(c.content) == c.content
  }

  /** Every record is stored under its own id. */
  ghost predicate KeyedById(comments: map<CommentId, Comment>)
  {
    forall id :: id in comments ==> comments[id].id == id
  }

  ghost predicate ValidTable(comments: map<CommentId, Comment>, nextId: ObjectId)
  {
    KeyedById(comments) && forall id :: id in comments ==> id < nextId && WellFormed(comments[id])
  }

  /** Storing a well-formed comment under its own id, below the next id,
      keeps the table invariant. */
  lemma PutKeepsValid(comments: map<CommentId, Comment>, nextId: ObjectId, c: Comment)
    requires ValidTable(comments, nextId) && WellFormed(c) && c.id < nextId
    ensures ValidTable(comments[c.id := c], nextId)
  {
  }

  /** The filter `{ blogId, isDeleted: false }`: the live comments of a blog. */
  function LiveComments(comments: map<CommentId, Comment>, blogId: BlogId): set<CommentId>
  {
    set c | c in comments && comments[c].blogId == blogId && !comments[c].isDeleted
  }

  /** `commentModel.create`: content trimmed and required, the comment starts
      live; no check that the blog exists. */
  function NewComment(id: CommentId, content: string, author: UserId, blogId: BlogId, now: int): (r: Result<Comment, Thrown>)
    ensures r.Ok? <==> Trim(content) != ""
    ensures r.Ok? ==> !r.value.isDeleted
    ensures r.Ok? ==> r.value.id == id && r.value.content == Trim(content) && r.value.author == author
                      && r.value.blogId == blogId && r.value.createdAt == now
    ensures r.Ok? ==> WellFormed(r.value)
    ensures r.Err? ==> r.error == Failure(ValidationError)
  {
    TrimIdempotent(content);
    if Trim(content) == "" then Err(Failure(ValidationError))
    else Ok(Comment(id, Trim(content), author, blogId, false, now))
  }
}
