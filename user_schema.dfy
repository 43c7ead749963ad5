/** The `BlogUser` record (collection `usersofblog`): required fields, the
    unique email and userName, the lockout counters and their defaults, the
    bcrypt stand-in, and the queries the services run against the table. */
module UserSchema {
  import opened Base

  type UserId = ObjectId

  /** A bcrypt hash. Salting and the cost factor are not modelled: the hash of
      a password is a value of its own type, so a plaintext password can never
      be stored where a hash belongs. */
  datatype PasswordHash = Bcrypt(digestOf: string)

  function Hash(password: string): PasswordHash
  {
    Bcrypt(password)
  }

  /** bcrypt.compare: true exactly when the hash was made from this password. */
  predicate Compare(password: string, h: PasswordHash)
  {
    h == Hash(password)
  }

  datatype User = User(
    id: UserId,
    name: string,
    email: string,
    userName: string,
    password: PasswordHash,
    failedLoginAttempts: nat,
    lockUntil: Option<int>)   // milliseconds; None is the stored null

  /** Mongoose's `required` refuses a missing value and the empty string. */
  predicate HasRequiredFields(u: User)
  {
    u.name != "" && u.email != "" && u.userName != ""
  }

  /** The reason a required-field validation error carries. */
  const ValidationError := "ValidationError: a required path is missing"

  /** What `userModel.create` stores for a new user: the given fields and the
      schema defaults for the lockout counters, or a validation error. */
  function NewUser(id: UserId, name: string, email: string, userName: string, password: PasswordHash): (r: Result<User, Thrown>)
    ensures r.Ok? <==> name != "" && email != "" && userName != ""
    ensures r.Ok? ==> r.value.failedLoginAttempts == 0 && r.value.lockUntil == None
    ensures r.Ok? ==> r.value.id == id && r.value.name == name && r.value.email == email
                      && r.value.userName == userName && r.value.password == password
    ensures r.Err? ==> r.error == Failure(ValidationError)
  {
    if name == "" || email == "" || userName == "" then Err(Failure(ValidationError))
    else Ok(User(id, name, email, userName, password, 0, None))
  }

  /** The account is locked while `lockUntil` is set and still in the future. */
  predicate IsLocked(u: User, now: int)
  {
    u.lockUntil.Some? && u.lockUntil.value > now
  }

  /** The unique indexes on `_id`, `email` and `userName`. */
  ghost predicate UniqueKeys(users: seq<User>)
  {
    forall i, j :: 0 <= i < j < |users| ==>
      users[i].id != users[j].id && users[i].email != users[j].email && users[i].userName != users[j].userName
  }

  /** The invariant of the stored table: unique keys, required fields present,
      and every id below the next id the store will hand out. */
  ghost predicate ValidTable(users: seq<User>, nextId: ObjectId)
  {
    && UniqueKeys(users)
    && forall i :: 0 <= i < |users| ==> users[i].id < nextId && HasRequiredFields(users[i])
  }

  /** Whether writing `u` in place of record `i` would break a unique index:
      another record already has its email or its userName. */
  predicate ClashesWithOthers(users: seq<User>, i: nat, u: User)
  {
    exists j :: 0 <= j < |users| && j != i && (users[j].email == u.email || users[j].userName == u.userName)
  }

  /** The filters the services pass to `findOne` / `findById`. */
  datatype UserFilter = IdIs(id: UserId) | EmailOrUserName(email: string, userName: string)

  predicate Selects(f: UserFilter, u: User)
  {
    match f
    case IdIs(id) => u.id == id
    case EmailOrUserName(email, userName) => u.email == email || u.userName == userName
  }

  /** `findOne(filter)`: the position of the first matching document in the
      table's natural (insertion) order, or None. */
  function FindOne(users: seq<User>, f: UserFilter): (r: Option<nat>)
    ensures r.Some? ==> r.value < |users| && Selects(f, users[r.value])
    ensures r.Some? ==> forall j :: 0 <= j < r.value ==> !Selects(f, users[j])
    ensures r.None? <==> forall j :: 0 <= j < |users| ==> !Selects(f, users[j])
  {
    FindFrom(users, f, 0)
  }

  function FindFrom(users: seq<User>, f: UserFilter, from: nat): (r: Option<nat>)
    requires from <= |users|
    ensures r.Some? ==> from <= r.value < |users| && Selects(f, users[r.value])
    ensures r.Some? ==> forall j :: from <= j < r.value ==> !Selects(f, users[j])
    ensures r.None? <==> forall j :: from <= j < |users| ==> !Selects(f, users[j])
    decreases |users| - from
  {
    if from == |users| then None
    else if Selects(f, users[from]) then Some(from)
    else FindFrom(users, f, from + 1)
  }

  /** With unique ids, looking a user up by id finds exactly that user. */
  lemma FindByIdExact(users: seq<User>, i: nat)
    requires UniqueKeys(users) && i < |users|
    ensures FindOne(users, IdIs(users[i].id)) == Some(i)
  {
  }

  /** The public projection built by `sanitizeUser` and `getProfile`: it has
      no password field at all. */
  datatype PublicUser = PublicUser(id: UserId, name: string, userName: string, email: string)

  function Public(u: User): (p: PublicUser)
    ensures p.id == u.id && p.name == u.name && p.userName == u.userName && p.email == u.email
  {
    PublicUser(u.id, u.name, u.userName, u.email)
  }

  /** A document read with `.select('-password')`: every field but the hash. */
  datatype UserWithoutPassword = UserWithoutPassword(
    id: UserId,
    name: string,
    email: string,
    userName: string,
    failedLoginAttempts: nat,
    lockUntil: Option<int>)

  function WithoutPassword(u: User): (v: UserWithoutPassword)
    ensures v.id == u.id && v.name == u.name && v.email == u.email && v.userName == u.userName
    ensures v.failedLoginAttempts == u.failedLoginAttempts && v.lockUntil == u.lockUntil
  {
    UserWithoutPassword(u.id, u.name, u.email, u.userName, u.failedLoginAttempts, u.lockUntil)
  }

  /** Nothing of the hash or the lockout state shows through the public
      projection: records that differ only there project alike. */
  lemma PublicHidesSecrets(u: User, password: PasswordHash, attempts: nat, lockUntil: Option<int>)
    ensures Public(u.(password := password, failedLoginAttempts := attempts, lockUntil := lockUntil)) == Public(u)
  {
  }

  /** `.select('-password')` drops the hash and nothing else. */
  lemma WithoutPasswordHidesHash(u: User, password: PasswordHash)
    ensures WithoutPassword(u.(password := password)) == WithoutPassword(u)
  {
  }
}
