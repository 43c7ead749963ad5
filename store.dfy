/** The document store: the three collections and the ObjectId generator. */
module Store {
  import opened Base
  import opened UserSchema
  import opened BlogSchema
  import opened CommentSchema

  class Database {
    var users: seq<User>                      // natural order = insertion order
    var blogs: map<BlogId, Blog>
    var comments: map<CommentId, Comment>
    var nextId: ObjectId

    ghost predicate Valid()
      reads this
    {
      && UserSchema.ValidTable(users, nextId)
      && BlogSchema.ValidTable(blogs, nextId)
      && CommentSchema.ValidTable(comments, nextId)
    }

    constructor ()
      ensures Valid()
      ensures users == [] && blogs == map[] && comments == map[]
    {
      users := [];
      blogs := map[];
      comments := map[];
      nextId := 0;
    }

    /** `document.save()` of a user whose keys and required fields are those
        of the stored record: it writes unless the store fails. */
    method SaveUser(i: nat, u: User, io: Io) returns (saved: bool)
      requires Valid() && i < |users|
      requires u.id == users[i].id && u.email == users[i].email && u.userName == users[i].userName
      requires HasRequiredFields(u)
      modifies this`users
      ensures Valid()
      ensures saved <==> io != WriteFails
      ensures users == if saved then old(users)[i := u] else old(users)
    {
      saved := io != WriteFails;
      if saved {
        users := users[i := u];
      }
    }

    /** `userModel.create` of a new user whose email and userName no stored
        user has: it takes the next ObjectId and is appended in natural
        order. */
    method AppendUser(u: User)
      requires Valid() && u.id == nextId && HasRequiredFields(u)
      requires forall j :: 0 <= j < |users| ==> users[j].email != u.email && users[j].userName != u.userName
      modifies this`users, this`nextId
      ensures Valid()
      ensures users == old(users) + [u] && nextId == old(nextId) + 1
    {
      users := users + [u];
      nextId := nextId + 1;
    }

    /** A `$set` on user `i` that the unique indexes accept: no other user
        has the new email or userName. */
    method ReplaceUser(i: nat, u: User)
      requires Valid() && i < |users|
      requires u.id == users[i].id && HasRequiredFields(u)
      requires !ClashesWithOthers(users, i, u)
      modifies this`users
      ensures Valid()
      ensures users == old(users)[i := u]
    {
      users := users[i := u];
    }

    /** `blogModel.create` of a new record or `document.save()` of a stored
        one, once the schema's validators have passed. */
    method PutBlog(b: Blog)
      requires Valid() && BlogSchema.WellFormed(b) && b.id < nextId
      modifies this`blogs
      ensures Valid()
      ensures blogs == old(blogs)[b.id := b]
    {
      BlogSchema.PutKeepsValid(blogs, nextId, b);
      blogs := blogs[b.id := b];
    }

    /** `commentModel.create` of a new record or `document.save()` of a
        stored one, once the schema's validators have passed. */
    method PutComment(c: Comment)
      requires Valid() && CommentSchema.WellFormed(c) && c.id < nextId
      modifies this`comments
      ensures Valid()
      ensures comments == old(comments)[c.id := c]
    {
      CommentSchema.PutKeepsValid(comments, nextId, c);
      comments := comments[c.id := c];
    }

    /** Hands out a fresh ObjectId. */
    method NewId() returns (id: ObjectId)
      requires Valid()
      modifies this`nextId
      ensures Valid()
      ensures id == old(nextId) && nextId == id + 1
      ensures id !in blogs && id !in comments && forall j :: 0 <= j < |users| ==> users[j].id != id
    {
      id := nextId;
      nextId := nextId + 1;
    }
  }
}
