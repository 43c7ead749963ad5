/** The sign-in of the UserAuthService under src/user-auth: the account locks
    for fifteen minutes once ten consecutive wrong passwords have been given,
    a refused attempt on a locked account reports the seconds left, and a
    correct password always resets and saves the counters. */
module UserAuthTen {
  import opened Base
  import opened UserSchema
  import opened Store
  import opened UserAuth

  const MaxFailedAttempts := 10
  const LockTime := 15 * 60 * 1000
  const InvalidEmailOrUsername := "Invalid email or username"
  const IncorrectPassword := "Incorrect password"
  const SigninFailed := "Unable to sign in, please try again"
  const LoginSuccessful := "Login successful"

  datatype SignInInput = SignInInput(identifier: string, password: string)

  datatype Attempt = Attempt(user: User, save: bool, error: Option<HttpException>)

  /** `Math.ceil((lockUntil - now) / 1000)` for a lock still in force, on
      integer milliseconds: the least number of whole seconds covering the
      time left. */
  function SecondsLeft(lockUntil: int, now: int): (s: int)
    requires lockUntil > now
    ensures s >= 1
    ensures (s - 1) * 1000 < lockUntil - now <= s * 1000
    ensures lockUntil - now <= LockTime ==> s <= LockTime / 1000
  {
    (lockUntil - now + 999) / 1000
  }

  /** The refusal message of a locked account, with the seconds left. */
  function LockedMessage(secondsLeft: nat): string
  {
    "Account is locked. Try again in " + DecimalString(secondsLeft) + " seconds."
  }

  /** The message names the seconds left: two different figures never give
      the same text. */
  lemma LockedMessageDeterminesSeconds(a: nat, b: nat)
    requires LockedMessage(a) == LockedMessage(b)
    ensures a == b
  {
    var prefix := "Account is locked. Try again in ";
    var da := DecimalString(a);
    var db := DecimalString(b);
    assert |da| == |db|;
    assert LockedMessage(a)[|prefix|..|prefix| + |da|] == da;
    assert LockedMessage(b)[|prefix|..|prefix| + |db|] == db;
  }

  /** The lockout decision for one attempt on user `u` at time `now`. */
  function SigninStep(u: User, password: string, now: int): (a: Attempt)
    // a lock still in force refuses before the password is compared, reports the seconds left, and nothing changes
    ensures IsLocked(u, now) ==>
      a == Attempt(u, false, Some(BadRequest(LockedMessage(SecondsLeft(u.lockUntil.value, now)))))
    // a wrong password counts one more failure and locks exactly at the threshold
    ensures !IsLocked(u, now) && !Compare(password, u.password) ==>
      && a.error == Some(BadRequest(IncorrectPassword)) && a.save
      && a.user.failedLoginAttempts == u.failedLoginAttempts + 1
      && (a.user.failedLoginAttempts >= MaxFailedAttempts ==> a.user.lockUntil == Some(now + LockTime))
      && (a.user.failedLoginAttempts < MaxFailedAttempts ==> a.user.lockUntil == u.lockUntil)
      && (IsLocked(a.user, now) <==> a.user.failedLoginAttempts >= MaxFailedAttempts)
    // a correct password always resets the counters and saves, whatever they were
    ensures a.error.None? <==> !IsLocked(u, now) && Compare(password, u.password)
    ensures a.error.None? ==> a.save && a.user.failedLoginAttempts == 0 && a.user.lockUntil == None
    ensures a.save <==> !IsLocked(u, now)
    // the keys, the profile and the hash are never touched
    ensures a.user.id == u.id && a.user.name == u.name && a.user.email == u.email
            && a.user.userName == u.userName && a.user.password == u.password
  {
    if IsLocked(u, now) then
      Attempt(u, false, Some(BadRequest(LockedMessage(SecondsLeft(u.lockUntil.value, now)))))
    else if !Compare(password, u.password) then
      var attempts := u.failedLoginAttempts + 1;
      var lockUntil := if attempts >= MaxFailedAttempts then Some(now + LockTime) else u.lockUntil;
      Attempt(u.(failedLoginAttempts := attempts, lockUntil := lockUntil), true, Some(BadRequest(IncorrectPassword)))
    else
      Attempt(u.(failedLoginAttempts := 0, lockUntil := None), true, None)
  }

  /** `signin`: looks the identifier up as email or userName, applies the
      lockout accounting to the record it found, saves it, and issues a token
      whose payload carries only the user id. */
  method Signin(db: Database, input: SignInInput, now: int, io: Io) returns (r: Result<AuthResponse, HttpException>)
    requires db.Valid()
    modifies db`users
    ensures db.Valid()
    ensures io == ReadFails ==> r == Err(InternalServerError(SigninFailed)) && db.users == old(db.users)
    ensures io != ReadFails && FindOne(old(db.users), EmailOrUserName(input.identifier, input.identifier)).None? ==>
      r == Err(BadRequest(InvalidEmailOrUsername)) && db.users == old(db.users)
    ensures io != ReadFails && FindOne(old(db.users), EmailOrUserName(input.identifier, input.identifier)).Some? ==>
      var i := FindOne(old(db.users), EmailOrUserName(input.identifier, input.identifier)).value;
      var a := SigninStep(old(db.users)[i], input.password, now);
      && db.users == (if a.save && io != WriteFails then old(db.users)[i := a.user] else old(db.users))
      && r == (if a.save && io == WriteFails then Err(InternalServerError(SigninFailed))
               else if a.error.Some? then Err(a.error.value)
               else Ok(AuthResponse(LoginSuccessful, Public(a.user), TokenPayload(a.user.id, None), true)))
  {
    var outcome: Result<AuthResponse, Thrown>;
    var found := if io == ReadFails then None else FindOne(db.users, EmailOrUserName(input.identifier, input.identifier));
    if io == ReadFails {
      outcome := Err(Failure(StoreError));
    } else if found.None? {
      outcome := Err(Http(BadRequest(InvalidEmailOrUsername)));
    } else {
      var i := found.value;
      var existingUser := db.users[i];
      if IsLocked(existingUser, now) {
        var secondsLeft := SecondsLeft(existingUser.lockUntil.value, now);
        outcome := Err(Http(BadRequest(LockedMessage(secondsLeft))));
      } else if !Compare(input.password, existingUser.password) {
        existingUser := existingUser.(failedLoginAttempts := existingUser.failedLoginAttempts + 1);
        if existingUser.failedLoginAttempts >= MaxFailedAttempts {
          existingUser := existingUser.(lockUntil := Some(now + LockTime));
        }
        var saved := db.SaveUser(i, existingUser, io);
        outcome := if saved then Err(Http(BadRequest(IncorrectPassword))) else Err(Failure(StoreError));
      } else {
        existingUser := existingUser.(failedLoginAttempts := 0, lockUntil := None);
        var saved := db.SaveUser(i, existingUser, io);
        var payload := TokenPayload(existingUser.id, None);
        outcome := if saved then Ok(AuthResponse(LoginSuccessful, Public(existingUser), payload, true))
                   else Err(Failure(StoreError));
      }
    }
    match outcome
    case Ok(response) => r := Ok(response);
    case Err(t) => r := Err(CatchBadRequest(t, SigninFailed));
  }

  datatype Try = Try(password: string, now: int)

  /** The user record after a sequence of attempts, oldest first. */
  function Replay(u: User, tries: seq<Try>): (v: User)
    ensures v.id == u.id && v.password == u.password
  {
    if tries == [] then u
    else
      var last := tries[|tries| - 1];
      SigninStep(Replay(u, tries[..|tries| - 1]), last.password, last.now).user
  }

  /** From a clean record, the k-th consecutive wrong password leaves the
      counter at k; the first nine leave `lockUntil` unset and the tenth sets
      it fifteen minutes after that attempt. */
  lemma {:induction false} ConsecutiveWrongPasswords(u: User, tries: seq<Try>)
    requires u.failedLoginAttempts == 0 && u.lockUntil == None
    requires |tries| <= MaxFailedAttempts
    requires forall k :: 0 <= k < |tries| ==> !Compare(tries[k].password, u.password)
    ensures Replay(u, tries).failedLoginAttempts == |tries|
    ensures |tries| < MaxFailedAttempts ==> Replay(u, tries).lockUntil == None
    ensures |tries| == MaxFailedAttempts ==> Replay(u, tries).lockUntil == Some(tries[|tries| - 1].now + LockTime)
  {
    if tries != [] {
      ConsecutiveWrongPasswords(u, tries[..|tries| - 1]);
    }
  }

  /** After the tenth wrong password, an attempt made while the lock holds is
      refused with a seconds-left figure between 1 and 900, and changes
      nothing. */
  lemma LockedOutAfterTen(u: User, tries: seq<Try>, next: Try)
    requires u.failedLoginAttempts == 0 && u.lockUntil == None
    requires |tries| == MaxFailedAttempts
    requires forall k :: 0 <= k < |tries| ==> !Compare(tries[k].password, u.password)
    requires tries[|tries| - 1].now <= next.now < tries[|tries| - 1].now + LockTime
    ensures var v := Replay(u, tries);
            IsLocked(v, next.now)
            && 1 <= SecondsLeft(v.lockUntil.value, next.now) <= 900
            && SigninStep(v, next.password, next.now).error
               == Some(BadRequest(LockedMessage(SecondsLeft(v.lockUntil.value, next.now))))
    ensures Replay(u, tries + [next]) == Replay(u, tries)
  {
    ConsecutiveWrongPasswords(u, tries);
    assert (tries + [next])[..|tries|] == tries;
  }

  /** A correct password after the lock has lapsed signs in and clears both
      counters, however many failures preceded it. */
  lemma ResetAfterExpiry(u: User, tries: seq<Try>, next: Try)
    requires u.failedLoginAttempts == 0 && u.lockUntil == None
    requires |tries| == MaxFailedAttempts
    requires forall k :: 0 <= k < |tries| ==> !Compare(tries[k].password, u.password)
    requires next.now >= tries[|tries| - 1].now + LockTime && Compare(next.password, u.password)
    ensures SigninStep(Replay(u, tries), next.password, next.now).error.None?
    ensures Replay(u, tries + [next]).failedLoginAttempts == 0 && Replay(u, tries + [next]).lockUntil == None
  {
    ConsecutiveWrongPasswords(u, tries);
    assert (tries + [next])[..|tries|] == tries;
  }
}
