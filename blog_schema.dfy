/** The `Blog` record: trimmed required title, required content and author,
    optional cover image, the likes array and the soft-delete flag, with the
    defaults every create applies and the `$pull` / `$addToSet` updates that
    toggle a like. */
module BlogSchema {
  import opened Base
  import opened UserSchema

  type BlogId = ObjectId

  datatype CoverImage = CoverImage(publicId: string, url: string)

  datatype Blog = Blog(
    id: BlogId,
    title: string,
    content: string,
    author: UserId,
    coverImage: Option<CoverImage>,
    likes: seq<UserId>,
    isDeleted: bool,
    createdAt: int)   // the `timestamps` field, in milliseconds

  predicate NoDuplicates(xs: seq<UserId>)
  {
    forall i, j :: 0 <= i < j < |xs| ==> xs[i] != xs[j]
  }

  /** The schema's `required` validators, checked on create and on save. */
  predicate PassesValidation(b: Blog)
  {
    b.title != "" && b.content != ""
  }

  /** What holds of every stored blog. */
  ghost predicate WellFormed(b: Blog)
  {
    PassesValidation(b) && Trim(b.title) == b.title && NoDuplicates(b.likes)
  }

  /** Every record is stored under its own id. */
  ghost predicate KeyedById(blogs: map<BlogId, Blog>)
  {
    forall id :: id in blogs ==> blogs[id].id == id
  }

  ghost predicate ValidTable(blogs: map<BlogId, Blog>, nextId: ObjectId)
  {
    KeyedById(blogs) && forall id :: id in blogs ==> id < nextId && WellFormed(blogs[id])
  }

  /** Storing a well-formed blog under its own id, below the next id, keeps
      the table invariant. */
  lemma PutKeepsValid(blogs: map<BlogId, Blog>, nextId: ObjectId, b: Blog)
    requires ValidTable(blogs, nextId) && WellFormed(b) && b.id < nextId
    ensures ValidTable(blogs[b.id := b], nextId)
  {
  }

  /** `blogModel.create`: the title is trimmed, the likes start empty and the
      blog starts live; a blank title or empty content is a validation error. */
  function NewBlog(id: BlogId, title: string, content: string, author: UserId,
                   coverImage: Option<CoverImage>, now: int): (r: Result<Blog, Thrown>)
    ensures r.Ok? <==> Trim(title) != "" && content != ""
    ensures r.Ok? ==> r.value.likes == [] && !r.value.isDeleted
    ensures r.Ok? ==> r.value.id == id && r.value.title == Trim(title) && r.value.content == content
                      && r.value.author == author && r.value.coverImage == coverImage && r.value.createdAt == now
    ensures r.Ok? ==> WellFormed(r.value)
    ensures r.Err? ==> r.error == Failure(ValidationError)
  {
    TrimIdempotent(title);
    var b := Blog(id, Trim(title), content, author, coverImage, [], false, now);
    if PassesValidation(b) then Ok(b) else Err(Failure(ValidationError))
  }

  /** `$pull: { likes: user }`: removes every occurrence, keeping the order of
      the other entries. */
  function Pull(likes: seq<UserId>, user: UserId): (r: seq<UserId>)
    ensures user !in r
    ensures forall x :: x != user ==> (x in r <==> x in likes)
    ensures NoDuplicates(likes) ==> NoDuplicates(r)
    ensures |r| <= |likes|
    decreases |likes|
  {
    if likes == [] then []
    else
      var prefix := likes[..|likes| - 1];
      var rest := Pull(prefix, user);
      var last := likes[|likes| - 1];
      assert forall x :: x in likes <==> x in prefix || x == last;
      assert NoDuplicates(likes) ==> NoDuplicates(prefix) && forall k :: 0 <= k < |prefix| ==> prefix[k] != last;
      if last == user then rest
      else
        AppendFresh(rest, last);
        rest + [last]
  }

  /** Appending an element not yet present keeps an array duplicate-free. */
  lemma AppendFresh(xs: seq<UserId>, x: UserId)
    ensures NoDuplicates(xs) && x !in xs ==> NoDuplicates(xs + [x])
  {
    if NoDuplicates(xs) && x !in xs {
      var ys := xs + [x];
      forall i, j | 0 <= i < j < |ys| ensures ys[i] != ys[j] {
        if j == |xs| {
          assert ys[i] == xs[i];
        }
      }
    }
  }

  /** Pulling a user who is not in the array leaves the array as it was. */
  lemma {:induction false} PullAbsent(likes: seq<UserId>, user: UserId)
    requires user !in likes
    ensures Pull(likes, user) == likes
    decreases |likes|
  {
    if likes != [] {
      PullAbsent(likes[..|likes| - 1], user);
      assert likes[..|likes| - 1] + [likes[|likes| - 1]] == likes;
    }
  }

  /** `$addToSet: { likes: user }`: appends the user unless already present. */
  function AddToSet(likes: seq<UserId>, user: UserId): (r: seq<UserId>)
    ensures user in r
    ensures forall x :: x != user ==> (x in r <==> x in likes)
    ensures NoDuplicates(likes) ==> NoDuplicates(r)
  {
    if user in likes then likes
    else
      AppendFresh(likes, user);
      likes + [user]
  }

  /** The update `toggleLike` sends: pull when the user has liked, otherwise
      add to the set. */
  function ToggleLike(likes: seq<UserId>, user: UserId): (r: seq<UserId>)
    ensures user in r <==> user !in likes
    ensures forall x :: x != user ==> (x in r <==> x in likes)
    ensures NoDuplicates(likes) ==> NoDuplicates(r)
  {
    if user in likes then Pull(likes, user) else AddToSet(likes, user)
  }

  /** Two toggles by the same user give back the same set of likers, with no
      duplicates; when the user had not liked, the array itself comes back. */
  lemma ToggleTwice(likes: seq<UserId>, user: UserId)
    requires NoDuplicates(likes)
    ensures NoDuplicates(ToggleLike(ToggleLike(likes, user), user))
    ensures forall x :: x in ToggleLike(ToggleLike(likes, user), user) <==> x in likes
    ensures user !in likes ==> ToggleLike(ToggleLike(likes, user), user) == likes
  {
    if user !in likes {
      PullAbsent(likes, user);
      assert Pull(likes + [user], user) == Pull(likes, user) by {
        assert (likes + [user])[..|likes|] == likes;
      }
    }
  }
}
