/** UserBlogService: the signed-in user's profile, read without the password
    and updated with a partial `$set` that runs the schema validators. */
module UserBlogService {
  import opened Base
  import opened UserSchema
  import opened Store

  const UserNotFound := "User not found"
  /** The error MongoDB raises when a unique index would be broken. */
  const DuplicateKey := "E11000 duplicate key error"

  /** `findById(id)`: the record without its password, or NotFound. */
  function FindById(users: seq<User>, id: UserId): (r: Result<UserWithoutPassword, HttpException>)
    ensures r.Err? <==> forall j :: 0 <= j < |users| ==> users[j].id != id
    ensures r.Err? ==> r.error == NotFound("User with ID " + IdText(id) + " not found")
    ensures r.Ok? ==> exists j :: 0 <= j < |users| && users[j].id == id && r.value == WithoutPassword(users[j])
  {
    match UserSchema.FindOne(users, IdIs(id))
    case None => Err(NotFound("User with ID " + IdText(id) + " not found"))
    case Some(i) => Ok(WithoutPassword(users[i]))
  }

  /** `getProfile(userId)`: id, name, userName and email of the stored user. */
  function GetProfile(users: seq<User>, userId: UserId): (r: Result<PublicUser, HttpException>)
    ensures r.Err? <==> forall j :: 0 <= j < |users| ==> users[j].id != userId
    ensures r.Err? ==> r.error == NotFound("User with ID " + IdText(userId) + " not found")
    ensures r.Ok? ==> exists j :: 0 <= j < |users| && users[j].id == userId && r.value == Public(users[j])
  {
    match FindById(users, userId)
    case Err(e) => Err(e)
    case Ok(user) => Ok(PublicUser(user.id, user.name, user.userName, user.email))
  }

  /** The fields an update body may carry; an absent field is left alone. */
  datatype ProfilePatch = ProfilePatch(name: Option<string>, userName: Option<string>,
                                       email: Option<string>, password: Option<string>)

  /** The update validators refuse a required path set to the empty string;
      an empty password is falsy, so it is not hashed and is refused too. */
  predicate PassesValidators(p: ProfilePatch)
  {
    && p.name != Some("") && p.userName != Some("") && p.email != Some("") && p.password != Some("")
  }

  /** The record after `$set: updateData`, where a supplied password is
      replaced by its hash. */
  function Applied(u: User, p: ProfilePatch): (v: User)
    ensures v.name == (if p.name.Some? then p.name.value else u.name)
    ensures v.userName == (if p.userName.Some? then p.userName.value else u.userName)
    ensures v.email == (if p.email.Some? then p.email.value else u.email)
    ensures v.password == (if p.password.Some? then Hash(p.password.value) else u.password)
    ensures v.id == u.id && v.failedLoginAttempts == u.failedLoginAttempts && v.lockUntil == u.lockUntil
    ensures p == ProfilePatch(None, None, None, None) ==> v == u
  {
    u.(name := if p.name.Some? then p.name.value else u.name,
       userName := if p.userName.Some? then p.userName.value else u.userName,
       email := if p.email.Some? then p.email.value else u.email,
       password := if p.password.Some? then Hash(p.password.value) else u.password)
  }

  /** `updateProfile(userId, dto)`: validators first, then the lookup, then
      the unique indexes; a successful update changes only the supplied
      fields and returns the updated profile. */
  method UpdateProfile(db: Database, userId: UserId, patch: ProfilePatch) returns (r: Result<PublicUser, Thrown>)
    requires db.Valid()
    modifies db`users
    ensures db.Valid()
    ensures !PassesValidators(patch) ==> r == Err(Failure(ValidationError)) && db.users == old(db.users)
    ensures PassesValidators(patch) && (forall j :: 0 <= j < |old(db.users)| ==> old(db.users)[j].id != userId) ==>
      r == Err(Http(NotFound(UserNotFound))) && db.users == old(db.users)
    ensures PassesValidators(patch) && FindOne(old(db.users), IdIs(userId)).Some? ==>
      var i := FindOne(old(db.users), IdIs(userId)).value;
      var updated := Applied(old(db.users)[i], patch);
      if ClashesWithOthers(old(db.users), i, updated) then
        r == Err(Failure(DuplicateKey)) && db.users == old(db.users)
      else
        db.users == old(db.users)[i := updated] && r == Ok(Public(updated))
  {
    // an empty password is not hashed and reaches the validators as ""
    var updateData := patch;
    if !PassesValidators(updateData) {
      return Err(Failure(ValidationError));
    }
    var found := FindOne(db.users, IdIs(userId));
    if found.None? {
      return Err(Http(NotFound(UserNotFound)));
    }
    var i := found.value;
    var updated := Applied(db.users[i], updateData);
    if ClashesWithOthers(db.users, i, updated) {
      return Err(Failure(DuplicateKey));
    }
    db.ReplaceUser(i, updated);
    r := Ok(Public(updated));
  }

  /** A successful profile update never touches the lockout counters and
      stores a supplied password only as its hash. */
  lemma UpdateKeepsLockout(u: User, p: ProfilePatch)
    requires PassesValidators(p)
    ensures Applied(u, p).failedLoginAttempts == u.failedLoginAttempts && Applied(u, p).lockUntil == u.lockUntil
    ensures p.password.Some? ==> Compare(p.password.value, Applied(u, p).password)
    ensures p.password.None? ==> Applied(u, p).password == u.password
  {
  }
}
