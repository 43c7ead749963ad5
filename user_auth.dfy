/** What the two UserAuthService variants share: the sign-up operation, the
    `sanitizeUser` projection, the token payload and the catch block that lets
    only BadRequest through. */
module UserAuth {
  import opened Base
  import opened UserSchema
  import opened Store

  /** The JWT payload; signing and expiry are not modelled. */
  datatype TokenPayload = TokenPayload(sub: UserId, purpose: Option<string>)

  datatype AuthResponse = AuthResponse(message: string, data: PublicUser, token: TokenPayload, success: bool)

  datatype SignUpInput = SignUpInput(name: string, userName: string, email: string, password: string)

  const UserExists := "User already exists"
  const SignupFailed := "Unable to create new user, try again ..."
  const StoreError := "store operation failed"

  /** The catch blocks of signup and signin: a BadRequestException is
      rethrown as it is, anything else becomes an InternalServerError with
      the operation's generic message. */
  function CatchBadRequest(t: Thrown, fallback: string): (e: HttpException)
    ensures t.Http? && t.exception.BadRequest? ==> e == t.exception
    ensures !(t.Http? && t.exception.BadRequest?) ==> e == InternalServerError(fallback)
    ensures e.BadRequest? || e.InternalServerError?
  {
    if t.Http? && t.exception.BadRequest? then t.exception else InternalServerError(fallback)
  }

  /** Whether `findOne({ $or: [{ email }, { userName }] })` finds a user. */
  predicate Taken(users: seq<User>, email: string, userName: string)
  {
    FindOne(users, EmailOrUserName(email, userName)).Some?
  }

  /** `signup`: refuses a taken email or userName, otherwise stores the user
      with the hashed password and the lockout defaults and returns the public
      projection with a token whose subject is the new id. */
  method Signup(db: Database, input: SignUpInput, io: Io) returns (r: Result<AuthResponse, HttpException>)
    requires db.Valid()
    modifies db`users, db`nextId
    ensures db.Valid()
    ensures io == ReadFails ==>
      r == Err(InternalServerError(SignupFailed)) && db.users == old(db.users)
    ensures io != ReadFails && Taken(old(db.users), input.email, input.userName) ==>
      r == Err(BadRequest(UserExists)) && db.users == old(db.users)
    ensures (io != ReadFails && !Taken(old(db.users), input.email, input.userName)
             && (input.name == "" || input.email == "" || input.userName == "" || io == WriteFails)) ==>
      r == Err(InternalServerError(SignupFailed)) && db.users == old(db.users)
    ensures r.Ok? ==>
      var u := User(old(db.nextId), input.name, input.email, input.userName, Hash(input.password), 0, None);
      && io == Healthy
      && db.users == old(db.users) + [u]
      && r.value == AuthResponse("New user successfully created", Public(u), TokenPayload(u.id, None), true)
    ensures (io == Healthy && !Taken(old(db.users), input.email, input.userName) && input.name != ""
             && input.email != "" && input.userName != "") ==> r.Ok?
  {
    var outcome: Result<AuthResponse, Thrown>;
    if io == ReadFails {
      outcome := Err(Failure(StoreError));
    } else if Taken(db.users, input.email, input.userName) {
      outcome := Err(Http(BadRequest(UserExists)));
    } else {
      var hashedPassword := Hash(input.password);
      var created := NewUser(db.nextId, input.name, input.email, input.userName, hashedPassword);
      if created.Err? {
        outcome := Err(created.error);
      } else if io == WriteFails {
        outcome := Err(Failure(StoreError));
      } else {
        var newUser := created.value;
        forall j | 0 <= j < |db.users| ensures !Selects(EmailOrUserName(input.email, input.userName), db.users[j]) {
        }
        db.AppendUser(newUser);
        var payload := TokenPayload(newUser.id, None);
        outcome := Ok(AuthResponse("New user successfully created", Public(newUser), payload, true));
      }
    }
    match outcome
    case Ok(response) => r := Ok(response);
    case Err(t) => r := Err(CatchBadRequest(t, SignupFailed));
  }
}
