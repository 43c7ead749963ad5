/** The sign-in of the UserAuthService under src/services: the account locks
    for fifteen minutes once five consecutive wrong passwords have been given,
    and a correct password resets the counters only when there is something
    to reset. */
module UserAuthFive {
  import opened Base
  import opened UserSchema
  import opened Store
  import opened UserAuth

  const MaxFailedAttempts := 5
  const LockTime := 15 * 60 * 1000
  const InvalidCredentials := "Invalid credentials"
  const LockedMessage := "Account is temporarily locked. Please try again later."
  const IncorrectPassword := "Incorrect password"
  const SigninFailed := "Unable to sign in, please try again"
  const LoginSuccessful := "Login successful"

  datatype SignInInput = SignInInput(identifier: string, password: string)

  /** What one sign-in attempt does to the user it found: the record as it is
      afterwards, whether it is saved, and the exception raised, if any. */
  datatype Attempt = Attempt(user: User, save: bool, error: Option<HttpException>)

  /** The lockout decision for one attempt on user `u` at time `now`. */
  function SigninStep(u: User, password: string, now: int): (a: Attempt)
    // a lock still in force refuses before the password is compared, and nothing changes
    ensures IsLocked(u, now) ==> a == Attempt(u, false, Some(BadRequest(LockedMessage)))
    // a wrong password counts one more failure and locks exactly at the threshold
    ensures !IsLocked(u, now) && !Compare(password, u.password) ==>
      && a.error == Some(BadRequest(IncorrectPassword)) && a.save
      && a.user.failedLoginAttempts == u.failedLoginAttempts + 1
      && (a.user.failedLoginAttempts >= MaxFailedAttempts ==> a.user.lockUntil == Some(now + LockTime))
      && (a.user.failedLoginAttempts < MaxFailedAttempts ==> a.user.lockUntil == u.lockUntil)
      && (IsLocked(a.user, now) <==> a.user.failedLoginAttempts >= MaxFailedAttempts)
    // a correct password succeeds with clean counters, written only when they were not clean
    ensures a.error.None? <==> !IsLocked(u, now) && Compare(password, u.password)
    ensures a.error.None? ==> a.user.failedLoginAttempts == 0 && a.user.lockUntil == None
    ensures a.error.None? ==> (a.save <==> u.failedLoginAttempts > 0 || u.lockUntil.Some?)
    ensures !a.save ==> a.user == u
    // the keys, the profile and the hash are never touched
    ensures a.user.id == u.id && a.user.name == u.name && a.user.email == u.email
            && a.user.userName == u.userName && a.user.password == u.password
  {
    if IsLocked(u, now) then
      Attempt(u, false, Some(BadRequest(LockedMessage)))
    else if !Compare(password, u.password) then
      var attempts := u.failedLoginAttempts + 1;
      var lockUntil := if attempts >= MaxFailedAttempts then Some(now + LockTime) else u.lockUntil;
      Attempt(u.(failedLoginAttempts := attempts, lockUntil := lockUntil), true, Some(BadRequest(IncorrectPassword)))
    else if u.failedLoginAttempts > 0 || u.lockUntil.Some? then
      Attempt(u.(failedLoginAttempts := 0, lockUntil := None), true, None)
    else
      Attempt(u, false, None)
  }

  /** `signin`: looks the identifier up as email or userName, applies the
      lockout accounting to the record it found, saves it when the accounting
      says so, and issues a token whose payload carries the purpose 'signup'. */
  method Signin(db: Database, input: SignInInput, now: int, io: Io) returns (r: Result<AuthResponse, HttpException>)
    requires db.Valid()
    modifies db`users
    ensures db.Valid()
    ensures io == ReadFails ==> r == Err(InternalServerError(SigninFailed)) && db.users == old(db.users)
    ensures io != ReadFails && FindOne(old(db.users), EmailOrUserName(input.identifier, input.identifier)).None? ==>
      r == Err(BadRequest(InvalidCredentials)) && db.users == old(db.users)
    ensures io != ReadFails && FindOne(old(db.users), EmailOrUserName(input.identifier, input.identifier)).Some? ==>
      var i := FindOne(old(db.users), EmailOrUserName(input.identifier, input.identifier)).value;
      var a := SigninStep(old(db.users)[i], input.password, now);
      && db.users == (if a.save && io != WriteFails then old(db.users)[i := a.user] else old(db.users))
      && r == (if a.save && io == WriteFails then Err(InternalServerError(SigninFailed))
               else if a.error.Some? then Err(a.error.value)
               else Ok(AuthResponse(LoginSuccessful, Public(a.user), TokenPayload(a.user.id, Some("signup")), true)))
  {
    var outcome: Result<AuthResponse, Thrown>;
    var found := if io == ReadFails then None else FindOne(db.users, EmailOrUserName(input.identifier, input.identifier));
    if io == ReadFails {
      outcome := Err(Failure(StoreError));
    } else if found.None? {
      outcome := Err(Http(BadRequest(InvalidCredentials)));
    } else {
      var i := found.value;
      var existingUser := db.users[i];
      if IsLocked(existingUser, now) {
        outcome := Err(Http(BadRequest(LockedMessage)));
      } else if !Compare(input.password, existingUser.password) {
        existingUser := existingUser.(failedLoginAttempts := existingUser.failedLoginAttempts + 1);
        if existingUser.failedLoginAttempts >= MaxFailedAttempts {
          existingUser := existingUser.(lockUntil := Some(now + LockTime));
        }
        var saved := db.SaveUser(i, existingUser, io);
        outcome := if saved then Err(Http(BadRequest(IncorrectPassword))) else Err(Failure(StoreError));
      } else {
        var saved := true;
        if existingUser.failedLoginAttempts > 0 || existingUser.lockUntil.Some? {
          existingUser := existingUser.(failedLoginAttempts := 0, lockUntil := None);
          saved := db.SaveUser(i, existingUser, io);
        }
        var payload := TokenPayload(existingUser.id, Some("signup"));
        outcome := if saved then Ok(AuthResponse(LoginSuccessful, Public(existingUser), payload, true))
                   else Err(Failure(StoreError));
      }
    }
    match outcome
    case Ok(response) => r := Ok(response);
    case Err(t) => r := Err(CatchBadRequest(t, SigninFailed));
  }

  /** One sign-in attempt in a sequence of attempts against the same user. */
  datatype Try = Try(password: string, now: int)

  /** The user record after a sequence of attempts, oldest first. */
  function Replay(u: User, tries: seq<Try>): (v: User)
    ensures v.id == u.id && v.password == u.password
  {
    if tries == [] then u
    else
      var last := tries[|tries| - 1];
      SigninStep(Replay(u, tries[..|tries| - 1]), last.password, last.now).user
  }

  /** From a clean record, the k-th consecutive wrong password leaves the
      counter at k; the first four leave the account unlocked and the fifth
      locks it for fifteen minutes from that attempt. */
  lemma {:induction false} ConsecutiveWrongPasswords(u: User, tries: seq<Try>)
    requires u.failedLoginAttempts == 0 && u.lockUntil == None
    requires |tries| <= MaxFailedAttempts
    requires forall k :: 0 <= k < |tries| ==> !Compare(tries[k].password, u.password)
    ensures Replay(u, tries).failedLoginAttempts == |tries|
    ensures |tries| < MaxFailedAttempts ==> Replay(u, tries).lockUntil == None
    ensures |tries| == MaxFailedAttempts ==> Replay(u, tries).lockUntil == Some(tries[|tries| - 1].now + LockTime)
  {
    if tries != [] {
      ConsecutiveWrongPasswords(u, tries[..|tries| - 1]);
    }
  }

  /** Once locked by the fifth wrong password, every attempt in the next
      fifteen minutes is refused, the correct password included, and changes
      nothing. */
  lemma LockedOutAfterFive(u: User, tries: seq<Try>, next: Try)
    requires u.failedLoginAttempts == 0 && u.lockUntil == None
    requires |tries| == MaxFailedAttempts
    requires forall k :: 0 <= k < |tries| ==> !Compare(tries[k].password, u.password)
    requires tries[|tries| - 1].now <= next.now < tries[|tries| - 1].now + LockTime
    ensures SigninStep(Replay(u, tries), next.password, next.now).error == Some(BadRequest(LockedMessage))
    ensures Replay(u, tries + [next]) == Replay(u, tries)
  {
    ConsecutiveWrongPasswords(u, tries);
    assert (tries + [next])[..|tries|] == tries;
  }

  /** The counter is not reset when the lock expires: after the lock lapses,
      one more wrong password locks the account again at once. */
  lemma RelockAfterExpiry(u: User, tries: seq<Try>, next: Try)
    requires u.failedLoginAttempts == 0 && u.lockUntil == None
    requires |tries| == MaxFailedAttempts
    requires forall k :: 0 <= k < |tries| ==> !Compare(tries[k].password, u.password)
    requires next.now >= tries[|tries| - 1].now + LockTime && !Compare(next.password, u.password)
    ensures Replay(u, tries + [next]).failedLoginAttempts == MaxFailedAttempts + 1
    ensures Replay(u, tries + [next]).lockUntil == Some(next.now + LockTime)
  {
    ConsecutiveWrongPasswords(u, tries);
    assert (tries + [next])[..|tries|] == tries;
  }
}
