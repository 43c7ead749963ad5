/** CommentService: comments on blogs, with author-only edit and delete and
    soft delete. `update` refuses a soft-deleted comment; `remove` does not. */
module CommentService {
  import opened Base
  import opened UserSchema
  import opened BlogSchema
  import opened CommentSchema
  import opened Store
  import opened Query

  const CommentNotFound := "Comment not found"
  const EditOwnOnly := "You can only edit your own comments"
  const DeleteOwnOnly := "You can only delete your own comments"
  const CommentDeleted := "Comment deleted successfully"

  /** `create(userId, blogId, dto)`: stores the trimmed content for the
      caller under the given blog id. Whether that blog exists, or is live,
      is not checked. */
  method Create(db: Database, userId: UserId, blogId: BlogId, content: string, now: int) returns (r: Result<Comment, Thrown>)
    requires db.Valid()
    modifies db`comments, db`nextId
    ensures db.Valid()
    ensures r.Ok? <==> Trim(content) != ""
    ensures r.Err? ==> r.error == Failure(ValidationError) && db.comments == old(db.comments)
    ensures r.Ok? ==>
      && r.value == Comment(old(db.nextId), Trim(content), userId, blogId, false, now)
      && old(db.nextId) !in old(db.comments)
      && db.comments == old(db.comments)[r.value.id := r.value]
  {
    var created := NewComment(db.nextId, content, userId, blogId, now);
    if created.Err? {
      return Err(created.error);
    }
    var comment := created.value;
    var id := db.NewId();
    db.PutComment(comment);
    r := Ok(comment);
  }

  /** The `author` slot of a comment as `findByBlog` returns it:
      `populate('author', 'userName')` puts the user's id and userName there,
      or null when the user is gone. */
  datatype PopulatedAuthor = PopulatedAuthor(id: UserId, userName: string)

  /** A comment as `findByBlog` returns it: the stored fields, with `author`
      shown in place of the stored author id. */
  datatype CommentRow = CommentRow(comment: Comment, author: Option<PopulatedAuthor>)

  function PopulateAuthor(users: seq<User>, author: UserId): (a: Option<PopulatedAuthor>)
    ensures a.None? <==> forall j :: 0 <= j < |users| ==> users[j].id != author
    ensures a.Some? ==> a.value.id == author
                        && exists j :: 0 <= j < |users| && users[j].id == author && users[j].userName == a.value.userName
  {
    match UserSchema.FindOne(users, IdIs(author))
    case None => None
    case Some(i) => Some(PopulatedAuthor(author, users[i].userName))
  }

  /** The creation times of the live comments of a blog. */
  function LiveCommentStamps(comments: map<CommentId, Comment>, blogId: BlogId): map<CommentId, int>
  {
    map c | c in LiveComments(comments, blogId) :: comments[c].createdAt
  }

  /** `findByBlog(blogId)`: exactly the live comments of that blog, each
      once, newest first, with their authors populated. Nothing changes. */
  method FindByBlog(db: Database, blogId: BlogId) returns (rows: seq<CommentRow>)
    requires CommentSchema.KeyedById(db.comments)
    ensures forall k :: 0 <= k < |rows| ==>
      && rows[k].comment.id in db.comments
      && db.comments[rows[k].comment.id] == rows[k].comment
      && rows[k].comment.blogId == blogId && !rows[k].comment.isDeleted
      && rows[k].author == PopulateAuthor(db.users, rows[k].comment.author)
    ensures forall c :: c in db.comments && db.comments[c].blogId == blogId && !db.comments[c].isDeleted ==>
      exists k :: 0 <= k < |rows| && rows[k].comment.id == c
    ensures forall i, j :: 0 <= i < j < |rows| ==>
      rows[i].comment.id != rows[j].comment.id && rows[i].comment.createdAt >= rows[j].comment.createdAt
  {
    var stamps := LiveCommentStamps(db.comments, blogId);
    var order := SortNewestFirst(stamps);
    rows := [];
    var i := 0;
    while i < |order|
      invariant 0 <= i <= |order| && |rows| == i
      invariant forall k :: 0 <= k < i ==>
        rows[k] == CommentRow(db.comments[order[k]], PopulateAuthor(db.users, db.comments[order[k]].author))
    {
      var comment := db.comments[order[i]];
      rows := rows + [CommentRow(comment, PopulateAuthor(db.users, comment.author))];
      i := i + 1;
    }
    forall c | c in db.comments && db.comments[c].blogId == blogId && !db.comments[c].isDeleted
      ensures exists k :: 0 <= k < |rows| && rows[k].comment.id == c
    {
      assert c in stamps;
      var k :| 0 <= k < |order| && order[k] == c;
      assert rows[k].comment.id == c;
    }
    forall i, j | 0 <= i < j < |rows|
      ensures rows[i].comment.id != rows[j].comment.id && rows[i].comment.createdAt >= rows[j].comment.createdAt
    {
      assert stamps[order[i]] >= stamps[order[j]];
    }
  }

  /** `update(commentId, userId, content)`: only the author may edit a live
      comment; only its content changes, trimmed and re-validated on save. */
  method Update(db: Database, commentId: CommentId, userId: UserId, content: string) returns (r: Result<Comment, Thrown>)
    requires db.Valid()
    modifies db`comments
    ensures db.Valid()
    ensures commentId !in old(db.comments) || old(db.comments)[commentId].isDeleted ==>
      r == Err(Http(NotFound(CommentNotFound))) && db.comments == old(db.comments)
    ensures commentId in old(db.comments) && !old(db.comments)[commentId].isDeleted
            && old(db.comments)[commentId].author != userId ==>
      r == Err(Http(Forbidden(EditOwnOnly))) && db.comments == old(db.comments)
    ensures r.Ok? <==> commentId in old(db.comments) && !old(db.comments)[commentId].isDeleted
                       && old(db.comments)[commentId].author == userId && Trim(content) != ""
    ensures r.Ok? ==>
      && r.value == old(db.comments)[commentId].(content := Trim(content))
      && db.comments == old(db.comments)[commentId := r.value]
    ensures commentId in old(db.comments) && !old(db.comments)[commentId].isDeleted
            && old(db.comments)[commentId].author == userId && Trim(content) == "" ==>
      r == Err(Failure(ValidationError))
    ensures r.Err? ==> db.comments == old(db.comments)
  {
    if commentId !in db.comments || db.comments[commentId].isDeleted {
      return Err(Http(NotFound(CommentNotFound)));
    }
    var comment := db.comments[commentId];
    if comment.author != userId {
      return Err(Http(Forbidden(EditOwnOnly)));
    }
    var trimmed := Trim(content);
    comment := comment.(content := trimmed);
    if trimmed == "" {
      return Err(Failure(ValidationError));
    }
    TrimIdempotent(content);
    assert CommentSchema.WellFormed(comment);
    db.PutComment(comment);
    r := Ok(comment);
  }

  /** The caller's id as the comment controller hands it to the service:
      `req.user._id`, which at run time is an ObjectId object, or its string
      form. */
  datatype CallerId = IdString(oid: ObjectId) | IdObject(oid: ObjectId)

  /** The ownership test of `remove` as written: the author's string form
      compared with `!==` to the caller's id as given. A string is never
      strictly equal to an object, so only a string id can pass. */
  predicate RemoveAllowedAsWritten(author: UserId, caller: CallerId)
  {
    caller.IdString? && caller.oid == author
  }

  /** With the id the controller actually passes, the author of a comment is
      refused: the test as written lets nobody delete. */
  lemma RemoveAsWrittenRefusesAuthor(c: Comment, caller: CallerId)
    requires caller == IdObject(c.author)
    ensures !RemoveAllowedAsWritten(c.author, caller)
    ensures c.author == caller.oid
  {
  }

  /** The evidently intended test, comparing string forms on both sides as
      `update` does: the caller is allowed exactly when it is the author,
      however its id is represented. */
  predicate RemoveAllowed(author: UserId, caller: CallerId)
  {
    caller.oid == author
  }

  datatype DeleteReply = DeleteReply(message: string)

  /** `remove(commentId, userId)` with the intended ownership test: only an
      absent comment is NotFound, so the author may delete an already
      deleted comment again; the record stays, with `isDeleted` set. */
  method Remove(db: Database, commentId: CommentId, caller: CallerId) returns (r: Result<DeleteReply, HttpException>)
    requires db.Valid()
    modifies db`comments
    ensures db.Valid()
    ensures commentId !in old(db.comments) ==> r == Err(NotFound(CommentNotFound)) && db.comments == old(db.comments)
    ensures commentId in old(db.comments) && !RemoveAllowed(old(db.comments)[commentId].author, caller) ==>
      r == Err(Forbidden(DeleteOwnOnly)) && db.comments == old(db.comments)
    ensures r.Ok? <==> commentId in old(db.comments) && old(db.comments)[commentId].author == caller.oid
    ensures r.Ok? ==>
      && r.value == DeleteReply(CommentDeleted)
      && db.comments == old(db.comments)[commentId := old(db.comments)[commentId].(isDeleted := true)]
  {
    if commentId !in db.comments {
      return Err(NotFound(CommentNotFound));
    }
    var comment := db.comments[commentId];
    if !RemoveAllowed(comment.author, caller) {
      return Err(Forbidden(DeleteOwnOnly));
    }
    comment := comment.(isDeleted := true);
    db.PutComment(comment);
    r := Ok(DeleteReply(CommentDeleted));
  }
}
