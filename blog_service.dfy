/** BlogService: the blog aggregate over the store, with the read-through
    cache of the full listing under the key `blogs_all`. Every successful
    write deletes that key. */
module BlogService {
  import opened Base
  import opened UserSchema
  import opened BlogSchema
  import opened CommentSchema
  import opened Store
  import opened Query

  const BlogsNotFound := "Blog not found"
  const NotFoundOrRemoved := "Blog not found or has been removed"
  const NotAllowedToEdit := "You are not allowed to edit this blog"
  const NotAllowedToDelete := "You are not allowed to delete this blog"
  const CreateFailed := "Failed to create blog"
  /** What reading `toString` of a null author throws. */
  const TypeError := "TypeError: Cannot read properties of null (reading 'toString')"

  datatype AuthorView = AuthorView(id: UserId, userName: Option<string>)

  datatype BlogResponse = BlogResponse(
    id: BlogId,
    title: string,
    content: string,
    author: AuthorView,
    likesCount: nat,
    commentsCount: nat,
    coverImage: Option<CoverImage>,
    createdAt: int)

  /** The `author` slot of a blog document as `sanitizeBlog` sees it: a bare
      ObjectId, a document filled in by `populate('author', 'userName')`, or
      the null that `populate` leaves when the user is gone. */
  datatype AuthorField = AuthorRef(id: UserId) | AuthorDoc(id: UserId, userName: string) | AuthorNull

  /** `sanitizeBlog(blog, commentsCount)`: the public shape of a blog. The
      author's userName is there only when the author was populated, and a
      null author makes the projection throw. */
  function SanitizeBlog(b: Blog, author: AuthorField, commentsCount: nat): (r: Result<BlogResponse, Thrown>)
    ensures r.Ok? <==> !author.AuthorNull?
    ensures r.Err? ==> r.error == Failure(TypeError)
    ensures r.Ok? ==>
      && r.value.id == b.id && r.value.title == b.title && r.value.content == b.content
      && r.value.coverImage == b.coverImage && r.value.createdAt == b.createdAt
      && r.value.likesCount == |b.likes| && r.value.commentsCount == commentsCount
      && r.value.author.id == author.id
      && (r.value.author.userName.Some? <==> author.AuthorDoc?)
      && (author.AuthorDoc? ==> r.value.author.userName == Some(author.userName))
  {
    match author
    case AuthorNull => Err(Failure(TypeError))
    case AuthorRef(id) =>
      Ok(BlogResponse(b.id, b.title, b.content, AuthorView(id, None), |b.likes|, commentsCount, b.coverImage, b.createdAt))
    case AuthorDoc(id, userName) =>
      Ok(BlogResponse(b.id, b.title, b.content, AuthorView(id, Some(userName)), |b.likes|, commentsCount, b.coverImage, b.createdAt))
  }

  /** `populate('author', 'userName')` against the user table. */
  function Populate(users: seq<User>, author: UserId): (a: AuthorField)
    ensures a.AuthorNull? <==> forall j :: 0 <= j < |users| ==> users[j].id != author
    ensures a.AuthorDoc? ==> a.id == author && exists j :: 0 <= j < |users| && users[j].id == author
                                                         && users[j].userName == a.userName
    ensures !a.AuthorRef?
  {
    match UserSchema.FindOne(users, IdIs(author))
    case None => AuthorNull
    case Some(i) => AuthorDoc(author, users[i].userName)
  }

  /** `countDocuments({ blogId, isDeleted: false })`. */
  function LiveCommentCount(comments: map<CommentId, Comment>, blogId: BlogId): nat
  {
    |LiveComments(comments, blogId)|
  }

  /** The creation times of the blogs `find({ isDeleted: false })` returns. */
  function LiveBlogStamps(blogs: map<BlogId, Blog>): map<BlogId, int>
  {
    map id | id in blogs && !blogs[id].isDeleted :: blogs[id].createdAt
  }

  /** One row of the listing: the blog with its populated author and its
      count of live comments. */
  function Row(id: BlogId, users: seq<User>, blogs: map<BlogId, Blog>, comments: map<CommentId, Comment>): Result<BlogResponse, Thrown>
    requires id in blogs
  {
    SanitizeBlog(blogs[id], Populate(users, blogs[id].author), LiveCommentCount(comments, id))
  }

  /** `row` is the public shape of blog `b`: its fields, its likes and live
      comments counted, and its author populated with that user's userName. */
  ghost predicate Describes(row: BlogResponse, b: Blog, users: seq<User>, comments: map<CommentId, Comment>)
  {
    && row.id == b.id && row.title == b.title && row.content == b.content
    && row.coverImage == b.coverImage && row.createdAt == b.createdAt
    && row.likesCount == |b.likes| && row.commentsCount == |LiveComments(comments, b.id)|
    && row.author.id == b.author
    && exists j :: 0 <= j < |users| && users[j].id == b.author && row.author.userName == Some(users[j].userName)
  }

  /** The rows for the blogs listed in `order`, or the error of the first
      row that cannot be built. */
  function ListingFor(order: seq<BlogId>, users: seq<User>, blogs: map<BlogId, Blog>,
                      comments: map<CommentId, Comment>): (r: Result<seq<BlogResponse>, Thrown>)
    requires forall k :: 0 <= k < |order| ==> order[k] in blogs
    ensures r.Ok? <==> forall k :: 0 <= k < |order| ==> Row(order[k], users, blogs, comments).Ok?
    ensures r.Ok? ==> |r.value| == |order|
                      && forall k :: 0 <= k < |order| ==> r.value[k] == Row(order[k], users, blogs, comments).value
    ensures r.Err? ==> r.error == Failure(TypeError)
  {
    if order == [] then Ok([])
    else
      assert forall k :: 0 <= k < |order| - 1 ==> order[..|order| - 1][k] == order[k];
      var prefix := ListingFor(order[..|order| - 1], users, blogs, comments);
      var last := Row(order[|order| - 1], users, blogs, comments);
      if prefix.Err? then prefix
      else if last.Err? then Err(last.error)
      else Ok(prefix.value + [last.value])
  }

  /** The body `findAll` returns and caches. */
  datatype Listing = Listing(success: bool, data: seq<BlogResponse>)

  /** `l` is what a cache miss could compute from the current tables. */
  ghost predicate IsCurrentListing(l: Listing, users: seq<User>, blogs: map<BlogId, Blog>, comments: map<CommentId, Comment>)
  {
    && l.success
    && exists order :: NewestFirst(order, LiveBlogStamps(blogs)) && ListingFor(order, users, blogs, comments) == Ok(l.data)
  }

  /** Row `k` of a listing describes blog `order[k]`: its fields, its likes
      and live comments counted and its author populated. */
  lemma RowDescribes(order: seq<BlogId>, users: seq<User>, blogs: map<BlogId, Blog>,
                     comments: map<CommentId, Comment>, rows: seq<BlogResponse>, k: nat)
    requires BlogSchema.KeyedById(blogs) && forall k :: 0 <= k < |order| ==> order[k] in blogs
    requires ListingFor(order, users, blogs, comments) == Ok(rows)
    requires k < |order|
    ensures k < |rows|
    ensures rows[k].id == order[k] && Describes(rows[k], blogs[order[k]], users, comments)
  {
    var row := Row(order[k], users, blogs, comments);
    assert row.Ok? && rows[k] == row.value;
  }

  /** A listing built from live blogs newest first: its rows are exactly the
      live blogs, newest first, each with its likes and live comments counted
      and its author's userName. */
  lemma ListingShape(order: seq<BlogId>, users: seq<User>, blogs: map<BlogId, Blog>,
                     comments: map<CommentId, Comment>, rows: seq<BlogResponse>)
    requires BlogSchema.KeyedById(blogs)
    requires NewestFirst(order, LiveBlogStamps(blogs))
    requires ListingFor(order, users, blogs, comments) == Ok(rows)
    ensures forall k :: 0 <= k < |rows| ==> rows[k].id in blogs && !blogs[rows[k].id].isDeleted
    ensures forall id :: id in blogs && !blogs[id].isDeleted ==> exists k :: 0 <= k < |rows| && rows[k].id == id
    ensures forall i, j :: 0 <= i < j < |rows| ==> rows[i].id != rows[j].id && rows[i].createdAt >= rows[j].createdAt
    ensures forall k :: 0 <= k < |rows| ==> Describes(rows[k], blogs[rows[k].id], users, comments)
  {
    var stamps := LiveBlogStamps(blogs);
    assert forall k :: 0 <= k < |order| ==> order[k] in stamps;
    forall k | 0 <= k < |order| ensures order[k] in blogs {
      assert order[k] in stamps;
    }
    forall k | 0 <= k < |rows|
      ensures rows[k].id == order[k] && rows[k].createdAt == stamps[order[k]]
      ensures Describes(rows[k], blogs[rows[k].id], users, comments)
    {
      RowDescribes(order, users, blogs, comments, rows, k);
    }
    forall id | id in blogs && !blogs[id].isDeleted ensures exists k :: 0 <= k < |rows| && rows[k].id == id {
      assert id in stamps;
      var k :| 0 <= k < |order| && order[k] == id;
      assert rows[k].id == id;
    }
  }

  /** The single cache slot the service uses, key `blogs_all`. Expiry after
      sixty seconds is not modelled. */
  class RedisCache {
    var blogsAll: Option<Listing>

    constructor ()
      ensures blogsAll == None
    {
      blogsAll := None;
    }
  }

  /** The cache, when filled, holds what a miss would compute now. */
  ghost predicate CacheFresh(db: Database, cache: RedisCache)
    reads db, cache
  {
    cache.blogsAll.Some? ==> IsCurrentListing(cache.blogsAll.value, db.users, db.blogs, db.comments)
  }

  /** `findAll`: a hit returns the cached listing without reading any table;
      a miss lists the live blogs newest first, counts their live comments,
      and caches the result. */
  method FindAll(db: Database, cache: RedisCache) returns (r: Result<Listing, Thrown>, ghost order: seq<BlogId>)
    modifies cache
    ensures old(cache.blogsAll).Some? ==> r == Ok(old(cache.blogsAll).value) && cache.blogsAll == old(cache.blogsAll)
    ensures old(cache.blogsAll).None? ==>
      && NewestFirst(order, LiveBlogStamps(db.blogs))
      && (forall k :: 0 <= k < |order| ==> order[k] in db.blogs)
      && (match ListingFor(order, db.users, db.blogs, db.comments)
          case Ok(rows) => r == Ok(Listing(true, rows)) && cache.blogsAll == Some(Listing(true, rows))
          case Err(e) => r == Err(e) && cache.blogsAll == None)
    ensures old(cache.blogsAll).None? ==> CacheFresh(db, cache)
    ensures old(CacheFresh(db, cache)) ==> CacheFresh(db, cache)
    ensures old(CacheFresh(db, cache)) && r.Ok? ==> IsCurrentListing(r.value, db.users, db.blogs, db.comments)
  {
    order := [];
    if cache.blogsAll.Some? {
      r := Ok(cache.blogsAll.value);
      return;
    }
    var stamps := LiveBlogStamps(db.blogs);
    var blogs := SortNewestFirst(stamps);
    order := blogs;
    assert forall k :: 0 <= k < |blogs| ==> blogs[k] in stamps;
    var rows := BuildRows(db, blogs);
    if rows.Err? {
      r := Err(rows.error);
      return;
    }
    var result := Listing(true, rows.value);
    r := Ok(result);
    cache.blogsAll := Some(result);
  }

  /** The miss path of `findAll`: one row per blog, in the given order. */
  method BuildRows(db: Database, blogs: seq<BlogId>) returns (r: Result<seq<BlogResponse>, Thrown>)
    requires forall k :: 0 <= k < |blogs| ==> blogs[k] in db.blogs
    ensures r == ListingFor(blogs, db.users, db.blogs, db.comments)
  {
    var data: seq<BlogResponse> := [];
    var i := 0;
    while i < |blogs|
      invariant 0 <= i <= |blogs|
      invariant ListingFor(blogs[..i], db.users, db.blogs, db.comments) == Ok(data)
    {
      var id := blogs[i];
      var count := LiveCommentCount(db.comments, id);
      var row := SanitizeBlog(db.blogs[id], Populate(db.users, db.blogs[id].author), count);
      assert blogs[..i + 1][..i] == blogs[..i];
      if row.Err? {
        assert ListingFor(blogs[..i + 1], db.users, db.blogs, db.comments).Err?;
        PrefixFailure(blogs, i + 1, db.users, db.blogs, db.comments);
        return Err(row.error);
      }
      data := data + [row.value];
      i := i + 1;
    }
    assert blogs[..i] == blogs;
    r := Ok(data);
  }

  /** A row that cannot be built makes the whole listing fail. */
  lemma {:induction false} PrefixFailure(order: seq<BlogId>, n: nat, users: seq<User>, blogs: map<BlogId, Blog>,
                                         comments: map<CommentId, Comment>)
    requires n <= |order| && forall k :: 0 <= k < |order| ==> order[k] in blogs
    requires ListingFor(order[..n], users, blogs, comments).Err?
    ensures ListingFor(order, users, blogs, comments).Err?
  {
    var k :| 0 <= k < n && Row(order[..n][k], users, blogs, comments).Err?;
    assert order[..n][k] == order[k];
  }

  datatype BlogData = BlogData(success: bool, data: BlogResponse)

  /** `findOne(blogId)`: a live blog with its populated author and its count
      of live comments. */
  function FindOne(users: seq<User>, blogs: map<BlogId, Blog>, comments: map<CommentId, Comment>,
                   blogId: BlogId): (r: Result<BlogData, Thrown>)
    requires BlogSchema.KeyedById(blogs)
    ensures r == Err(Http(NotFound(NotFoundOrRemoved))) <==> blogId !in blogs || blogs[blogId].isDeleted
    ensures r.Ok? <==> blogId in blogs && !blogs[blogId].isDeleted
                       && exists j :: 0 <= j < |users| && users[j].id == blogs[blogId].author
    ensures r.Ok? ==> r.value.success && r.value.data.id == blogId && Describes(r.value.data, blogs[blogId], users, comments)
    ensures blogId in blogs && !blogs[blogId].isDeleted && r.Err? ==> r.error == Failure(TypeError)
  {
    if blogId !in blogs || blogs[blogId].isDeleted then Err(Http(NotFound(NotFoundOrRemoved)))
    else
      var blog := blogs[blogId];
      var commentsCount := LiveCommentCount(comments, blogId);
      match SanitizeBlog(blog, Populate(users, blog.author), commentsCount)
      case Ok(data) => Ok(BlogData(true, data))
      case Err(e) => Err(e)
  }

  datatype CreateBlogInput = CreateBlogInput(title: string, content: string)

  /** The optional uploaded file and what the image host did with it. */
  datatype Upload = NoFile | Uploaded(publicId: string, secureUrl: string) | UploadFails

  datatype BlogReply = BlogReply(success: bool, message: string, data: BlogResponse)

  /** `create(userId, dto, file)`: uploads the cover when a file is given,
      inserts the blog, and clears the cache. `insertFails` says whether the
      store refuses the insert. Any failure is reported as 'Failed to create
      blog' and stores nothing. */
  method Create(db: Database, cache: RedisCache, userId: UserId, input: CreateBlogInput, file: Upload,
                now: int, insertFails: bool) returns (r: Result<BlogReply, HttpException>)
    requires db.Valid()
    modifies db`blogs, db`nextId, cache
    ensures db.Valid()
    ensures r.Ok? <==> !file.UploadFails? && !insertFails && Trim(input.title) != "" && input.content != ""
    ensures r.Err? ==>
      r.error == InternalServerError(CreateFailed) && db.blogs == old(db.blogs) && cache.blogsAll == old(cache.blogsAll)
    ensures r.Ok? ==>
      var cover := if file.Uploaded? then Some(CoverImage(file.publicId, file.secureUrl)) else None;
      var b := Blog(old(db.nextId), Trim(input.title), input.content, userId, cover, [], false, now);
      && old(db.nextId) !in old(db.blogs)
      && db.blogs == old(db.blogs)[b.id := b]
      && cache.blogsAll == None
      && r.value == BlogReply(true, "Blog created successfully", SanitizeBlog(b, AuthorRef(userId), 0).value)
  {
    var outcome: Result<BlogReply, Thrown>;
    var coverImage: Option<CoverImage> := None;
    if file.UploadFails? {
      outcome := Err(Failure("upload failed"));
    } else {
      if file.Uploaded? {
        coverImage := Some(CoverImage(file.publicId, file.secureUrl));
      }
      var created := NewBlog(db.nextId, input.title, input.content, userId, coverImage, now);
      if created.Err? {
        outcome := Err(created.error);
      } else if insertFails {
        outcome := Err(Failure("store operation failed"));
      } else {
        var blog := created.value;
        var id := db.NewId();
        db.PutBlog(blog);
        cache.blogsAll := None;
        outcome := Ok(BlogReply(true, "Blog created successfully", SanitizeBlog(blog, AuthorRef(userId), 0).value));
      }
    }
    match outcome
    case Ok(reply) => r := Ok(reply);
    case Err(_) => r := Err(InternalServerError(CreateFailed));
  }

  /** The fields an update body may carry; an absent field is left alone. */
  datatype BlogPatch = BlogPatch(title: Option<string>, content: Option<string>)

  /** `Object.assign(blog, dto)` followed by the schema's trim of the title. */
  function Patched(b: Blog, p: BlogPatch): (nb: Blog)
    ensures nb.title == (if p.title.Some? then Trim(p.title.value) else b.title)
    ensures nb.content == (if p.content.Some? then p.content.value else b.content)
    ensures nb.id == b.id && nb.author == b.author && nb.coverImage == b.coverImage
            && nb.likes == b.likes && nb.isDeleted == b.isDeleted && nb.createdAt == b.createdAt
    ensures p == BlogPatch(None, None) ==> nb == b
  {
    var withTitle := if p.title.Some? then b.(title := Trim(p.title.value)) else b;
    if p.content.Some? then withTitle.(content := p.content.value) else withTitle
  }

  /** `update(blogId, userId, dto)`: only the author may edit a live blog;
      only the supplied fields change, the save re-validates them, and a
      successful save clears the cache. */
  method Update(db: Database, cache: RedisCache, blogId: BlogId, userId: UserId, patch: BlogPatch)
    returns (r: Result<BlogReply, Thrown>)
    requires db.Valid()
    modifies db`blogs, cache
    ensures db.Valid()
    ensures blogId !in old(db.blogs) || old(db.blogs)[blogId].isDeleted ==>
      r == Err(Http(NotFound(BlogsNotFound))) && db.blogs == old(db.blogs) && cache.blogsAll == old(cache.blogsAll)
    ensures blogId in old(db.blogs) && !old(db.blogs)[blogId].isDeleted && old(db.blogs)[blogId].author != userId ==>
      r == Err(Http(Forbidden(NotAllowedToEdit))) && db.blogs == old(db.blogs) && cache.blogsAll == old(cache.blogsAll)
    ensures blogId in old(db.blogs) && !old(db.blogs)[blogId].isDeleted && old(db.blogs)[blogId].author == userId ==>
      var nb := Patched(old(db.blogs)[blogId], patch);
      if PassesValidation(nb) then
        && db.blogs == old(db.blogs)[blogId := nb]
        && cache.blogsAll == None
        && r == Ok(BlogReply(true, "Blog updated successfully", SanitizeBlog(nb, AuthorRef(userId), 0).value))
      else
        r == Err(Failure(ValidationError)) && db.blogs == old(db.blogs) && cache.blogsAll == old(cache.blogsAll)
  {
    if blogId !in db.blogs || db.blogs[blogId].isDeleted {
      return Err(Http(NotFound(BlogsNotFound)));
    }
    var blog := db.blogs[blogId];
    if blog.author != userId {
      return Err(Http(Forbidden(NotAllowedToEdit)));
    }
    if patch.title.Some? {
      TrimIdempotent(patch.title.value);
      blog := blog.(title := Trim(patch.title.value));
    }
    if patch.content.Some? {
      blog := blog.(content := patch.content.value);
    }
    if !PassesValidation(blog) {
      return Err(Failure(ValidationError));
    }
    db.PutBlog(blog);
    cache.blogsAll := None;
    r := Ok(BlogReply(true, "Blog updated successfully", SanitizeBlog(blog, AuthorRef(blog.author), 0).value));
  }

  datatype Ack = Ack(success: bool, message: string)

  /** `remove(blogId, userId)`: only the author may delete a live blog; the
      record stays in the table with `isDeleted` set, and the cache is
      cleared. */
  method Remove(db: Database, cache: RedisCache, blogId: BlogId, userId: UserId) returns (r: Result<Ack, HttpException>)
    requires db.Valid()
    modifies db`blogs, cache
    ensures db.Valid()
    ensures blogId !in old(db.blogs) || old(db.blogs)[blogId].isDeleted ==>
      r == Err(NotFound(BlogsNotFound)) && db.blogs == old(db.blogs) && cache.blogsAll == old(cache.blogsAll)
    ensures blogId in old(db.blogs) && !old(db.blogs)[blogId].isDeleted && old(db.blogs)[blogId].author != userId ==>
      r == Err(Forbidden(NotAllowedToDelete)) && db.blogs == old(db.blogs) && cache.blogsAll == old(cache.blogsAll)
    ensures r.Ok? <==> blogId in old(db.blogs) && !old(db.blogs)[blogId].isDeleted && old(db.blogs)[blogId].author == userId
    ensures r.Ok? ==>
      && r.value == Ack(true, "Blog deleted successfully")
      && db.blogs == old(db.blogs)[blogId := old(db.blogs)[blogId].(isDeleted := true)]
      && cache.blogsAll == None
  {
    if blogId !in db.blogs || db.blogs[blogId].isDeleted {
      return Err(NotFound(BlogsNotFound));
    }
    var blog := db.blogs[blogId];
    if blog.author != userId {
      return Err(Forbidden(NotAllowedToDelete));
    }
    blog := blog.(isDeleted := true);
    db.PutBlog(blog);
    cache.blogsAll := None;
    r := Ok(Ack(true, "Blog deleted successfully"));
  }

  datatype LikeReply = LikeReply(success: bool, message: string, commentsCount: nat, data: BlogResponse)

  /** `toggleLike(blogId, userId)`: on a live blog, pulls the user from the
      likes when present and adds them when absent, clears the cache, and
      returns the blog with its populated author. The write and the cache
      deletion happen before the projection, which throws when the author is
      gone. */
  method ToggleLike(db: Database, cache: RedisCache, blogId: BlogId, userId: UserId) returns (r: Result<LikeReply, Thrown>)
    requires db.Valid()
    modifies db`blogs, cache
    ensures db.Valid()
    ensures blogId !in old(db.blogs) || old(db.blogs)[blogId].isDeleted ==>
      r == Err(Http(NotFound(BlogsNotFound))) && db.blogs == old(db.blogs) && cache.blogsAll == old(cache.blogsAll)
    ensures blogId in old(db.blogs) && !old(db.blogs)[blogId].isDeleted ==>
      var b := old(db.blogs)[blogId];
      var nb := b.(likes := BlogSchema.ToggleLike(b.likes, userId));
      var count := LiveCommentCount(db.comments, blogId);
      && db.blogs == old(db.blogs)[blogId := nb]
      && cache.blogsAll == None
      && (userId in nb.likes <==> userId !in b.likes)
      && (r.Ok? <==> Populate(db.users, b.author).AuthorDoc?)
      && (r.Ok? ==> r.value == LikeReply(true, if userId in b.likes then "Like removed" else "Blog liked", count,
                                         SanitizeBlog(nb, Populate(db.users, b.author), count).value))
      && (r.Err? ==> r.error == Failure(TypeError))
  {
    if blogId !in db.blogs || db.blogs[blogId].isDeleted {
      return Err(Http(NotFound(BlogsNotFound)));
    }
    var blog := db.blogs[blogId];
    var hasLiked := userId in blog.likes;
    var updatedBlog := blog.(likes := if hasLiked then Pull(blog.likes, userId) else AddToSet(blog.likes, userId));
    db.PutBlog(updatedBlog);
    cache.blogsAll := None;
    var commentsCount := LiveCommentCount(db.comments, blogId);
    var data := SanitizeBlog(updatedBlog, Populate(db.users, updatedBlog.author), commentsCount);
    if data.Err? {
      return Err(data.error);
    }
    r := Ok(LikeReply(true, if hasLiked then "Like removed" else "Blog liked", commentsCount, data.value));
  }
}
